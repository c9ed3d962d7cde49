/** Recipe titles for the title picker (backend/apps/integration/fiches_titles.py): from the
    fiches database when it answers, otherwise from the local snapshots. Titles exported by
    legacy fiches as UTF-8 bytes read as Latin-1 ("mojibake", recognisable by an "Ã") are
    repaired on the way out. */
module FichesTitles {

  import opened Wrappers
  import opened Text
  import opened Json
  import opened Seqs
  import opened Sorting
  import opened Utf8
  import opened Snapshots
  import opened FichesCommon

  // ---------------------------------------------------------------------------------------
  // Title repair

  /** "Ã" (U+00C3), the Latin-1 reading of the lead byte of every UTF-8 sequence for
      U+00C0..U+00FF. */
  const Mark: char := '\U{C3}'

  /** The repair step: re-read the Latin-1 bytes of a text containing "Ã" as UTF-8. The text
      is kept when it has a character outside Latin-1, when its bytes are not UTF-8, or when the
      repair is empty. */
  function Repair(text: string): (r: string)
    ensures Mark !in text ==> r == text
    ensures r != text ==> Mark in text && Latin1Encode(text).Some? && Decode(Latin1Encode(text).value) == Some(r)
  {
    if Mark !in text then text
    else
      match Latin1Encode(text)
      case None => text
      case Some(bytes) =>
        match Decode(bytes)
        case None => text
        case Some(fixed) => if fixed != "" then fixed else text
  }

  /** `_normalize_title` as written: the text is stripped BEFORE the repair. A mojibake title
      whose last character's second UTF-8 byte reads as Latin-1 whitespace (U+00A0 for "à",
      U+0085 for "Å") loses that byte to the strip, and the repair then fails. */
  function NormalizeTitleAsWritten(show: Json -> string, value: Json): (r: string)
    ensures value.JNull? || Strip(Str(value, show)) == "" ==> r == ""
    ensures !value.JNull? && Mark !in Strip(Str(value, show)) ==> r == Strip(Str(value, show))
  {
    if value.JNull? then "" else NormalizeTextAsWritten(Str(value, show))
  }

  /** The as-written normalization of the text of a non-null value. */
  function NormalizeTextAsWritten(text: string): (r: string)
    ensures Strip(text) == "" ==> r == ""
    ensures Mark !in Strip(text) ==> r == Strip(text)
  {
    var t := Strip(text);
    if t == "" then "" else Repair(t)
  }

  /** The title "Città" as a legacy export stores it: its UTF-8 bytes 43 69 74 74 C3 A0 read as
      Latin-1, ending in "Ã" and a no-break space. */
  const CittaMojibake: string := "Citt\U{C3}\U{A0}"

  /** The as-written normalization turns that title into "CittÃ": the no-break space is
      stripped, the lone C3 byte is not UTF-8, and the damaged text is returned. */
  lemma AsWrittenKeepsMojibake(show: Json -> string)
    ensures NormalizeTitleAsWritten(show, JStr(CittaMojibake)) == "Citt\U{C3}"
  {
    var text := Str(JStr(CittaMojibake), show);
    assert text == CittaMojibake;
    assert NormalizeTitleAsWritten(show, JStr(CittaMojibake)) == NormalizeTextAsWritten(CittaMojibake);
    StripCittaMojibake();
    LoneLeadByteRejected();
  }

  lemma StripCittaMojibake()
    ensures Strip(CittaMojibake) == "Citt\U{C3}"
  {
    assert LStrip(CittaMojibake) == CittaMojibake;
    assert CittaMojibake[..5] == "Citt\U{C3}";
    assert RStrip(CittaMojibake[..5]) == "Citt\U{C3}";
    assert RStrip(CittaMojibake) == "Citt\U{C3}";
  }

  const CittBytes: seq<Byte> := [0x43, 0x69, 0x74, 0x74, 0xC3]

  /** Bytes ending in a lead byte without its continuation are not UTF-8. */
  lemma LoneLeadByteRejected()
    ensures Latin1Encode("Citt\U{C3}") == Some(CittBytes)
    ensures Decode(CittBytes).None?
  {
    var b := CittBytes;
    var e := Latin1Encode("Citt\U{C3}");
    assert e.Some?;
    assert |e.value| == 5;
    assert forall i :: 0 <= i < 5 ==> e.value[i] == b[i];
    assert e.value == b;
    assert DecodeOne(b[4..]).None?;
    assert Decode(b[4..]).None?;
    assert b[3..][1..] == b[4..];
    assert Decode(b[3..]).None?;
    assert b[2..][1..] == b[3..];
    assert Decode(b[2..]).None?;
    assert b[1..][1..] == b[2..];
    assert Decode(b[1..]).None?;
    assert b[1..] == b[1..];
  }

  /** `_normalize_title` with the repair applied to the whole text and the strip after it, as
      the comment on the repair evidently intends: a blank title is "", otherwise the repaired
      text stripped. */
  function NormalizeTitle(show: Json -> string, value: Json): (r: string)
    ensures value.JNull? || Strip(Str(value, show)) == "" ==> r == ""
    ensures IsStripped(r)
    ensures !value.JNull? && Mark !in Str(value, show) ==> r == Strip(Str(value, show))
  {
    if value.JNull? then "" else NormalizeText(Str(value, show))
  }

  /** The corrected normalization of the text of a non-null value. */
  function NormalizeText(text: string): (r: string)
    ensures Strip(text) == "" ==> r == ""
    ensures IsStripped(r)
    ensures Mark !in text ==> r == Strip(text)
  {
    if Strip(text) == "" then "" else
      StripStripped(Strip(Repair(text)));
      Strip(Repair(text))
  }

  /** A title is brought back from its mojibake: whatever non-blank title `s` a legacy export
      stored as the Latin-1 reading of its UTF-8 bytes, the normalization gives `s` stripped. */
  lemma CorrectedRepairsMojibake(show: Json -> string, s: string)
    requires Mark in Latin1Decode(Encode(s)) && Strip(s) != ""
    ensures NormalizeTitle(show, JStr(Latin1Decode(Encode(s)))) == Strip(s)
  {
    NormalizeTitleOfString(show, Latin1Decode(Encode(s)));
    CorrectedTextRepairsMojibake(s);
  }

  /** A string value normalizes as its text. */
  lemma NormalizeTitleOfString(show: Json -> string, t: string)
    ensures NormalizeTitle(show, JStr(t)) == NormalizeText(t)
  {
    var text := Str(JStr(t), show);
    assert text == t;
  }

  /** The text-level half of `CorrectedRepairsMojibake`. */
  lemma CorrectedTextRepairsMojibake(s: string)
    requires Mark in Latin1Decode(Encode(s)) && Strip(s) != ""
    ensures NormalizeText(Latin1Decode(Encode(s))) == Strip(s)
  {
    var m := Latin1Decode(Encode(s));
    MarkIsNotBlank(m);
    RepairUndoesMojibake(s);
  }

  /** The repair of a mojibake text gives back the text it came from. */
  lemma RepairUndoesMojibake(s: string)
    requires Mark in Latin1Decode(Encode(s)) && s != ""
    ensures Repair(Latin1Decode(Encode(s))) == s
  {
    Latin1RoundTrip(Encode(s));
    DecodeEncode(s);
  }

  /** A text holding "Ã" does not strip to nothing. */
  lemma MarkIsNotBlank(m: string)
    requires Mark in m
    ensures Strip(m) != ""
  {
    StripEmptyIffBlank(m);
    var i :| 0 <= i < |m| && m[i] == Mark;
    assert !IsSpace(m[i]);
  }

  /** For the mojibake of "Città" the normalization gives "Città". */
  lemma CorrectedRepairsCitta(show: Json -> string)
    ensures CittaMojibake == Latin1Decode(Encode("Citt\U{E0}"))
    ensures NormalizeTitle(show, JStr(CittaMojibake)) == "Citt\U{E0}"
  {
    var s := "Citt\U{E0}";
    assert EncodeChar('\U{E0}') == [0xC3, 0xA0];
    assert s[1..][1..][1..][1..] == "\U{E0}";
    assert Encode(s) == [0x43, 0x69, 0x74, 0x74, 0xC3, 0xA0];
    var m := Latin1Decode(Encode(s));
    assert forall i :: 0 <= i < 6 ==> m[i] == CittaMojibake[i];
    assert m == CittaMojibake;
    assert m[4] == Mark;
    assert IsStripped(s);
    StripStripped(s);
    CorrectedRepairsMojibake(show, s);
  }

  /** The as-written and the corrected normalization agree on every title without "Ã". */
  lemma NormalizeTitleAgreesWithoutMojibake(show: Json -> string, value: Json)
    requires Mark !in Str(value, show)
    ensures NormalizeTitleAsWritten(show, value) == NormalizeTitle(show, value)
  {
  }

  // ---------------------------------------------------------------------------------------
  // Title listing

  /** One title of the picker: the fiche id as text and the normalized title. */
  datatype TitleEntry = TitleEntry(ficheProductId: Option<string>, title: string)

  /** A row of the fiches recipe query: `id::text` and the title column. */
  datatype TitleRow = TitleRow(id: Option<string>, title: Json)

  /** What asking the fiches database gave: it is not configured, the query failed, or rows. */
  datatype TitleRead = TitleDbMissing | TitleDbFailed | TitleRows(rows: seq<TitleRow>)

  const DefaultTitleLimit: int := 30
  const MaxTitleLimit: int := 100

  function HasTitle(row: TitleRow): bool {
    Truthy(row.title)
  }

  /** Orders (fiche id, title) pairs by title. */
  function ByTitle(e: (string, string)): seq<int> {
    StrKey(e.1)
  }

  /** A snapshot the fallback lists for `query`: any snapshot for an empty query, otherwise one
      whose title holds the query up to case. */
  predicate Matches(query: string, s: Snapshot) {
    query == "" || TitleContains(s.title, query)
  }

  /** The distinct (fiche id, title) pairs of the matching snapshots. */
  ghost function MatchingPairs(store: seq<Snapshot>, query: string): set<(string, string)> {
    set s | s in store && Matches(query, s) :: (s.ficheProductId, s.title)
  }

  /** `values("fiche_product_id", "title")` of the matching snapshots: exactly their pairs. */
  function Candidates(store: seq<Snapshot>, query: string): (r: seq<(string, string)>)
    ensures forall e :: e in r <==> e in MatchingPairs(store, query)
  {
    var matching := if query == "" then store else Filter(store, WithTitlePart(query));
    var r := Map(matching, (s: Snapshot) => (s.ficheProductId, s.title));
    forall e | e in r ensures e in MatchingPairs(store, query) {
      var k :| 0 <= k < |r| && r[k] == e;
      assert matching[k] in store;
    }
    forall e | e in MatchingPairs(store, query) ensures e in r {
      var s :| s in store && Matches(query, s) && (s.ficheProductId, s.title) == e;
      assert s in matching;
      var k :| 0 <= k < |matching| && matching[k] == s;
      assert r[k] == e;
    }
    r
  }

  /** The (fiche id, title) pairs of the snapshot fallback, before normalization: snapshots whose
      title holds the query, ordered by title, without repeated pairs, at most `limit`. */
  function SnapshotTitles(store: seq<Snapshot>, query: string, limit: nat): (r: seq<(string, string)>)
    ensures |r| <= limit
    ensures forall i, j :: 0 <= i < j < |r| ==> r[i] != r[j]
    ensures Sorted(r, ByTitle)
    ensures forall e :: e in r ==> e in MatchingPairs(store, query)
  {
    var distinct := SortedPairs(store, query);
    var r := Take(distinct, limit);
    forall i, j | 0 <= i < j < |r| ensures r[i] != r[j] && SeqLe(ByTitle(r[i]), ByTitle(r[j])) {
      assert r[i] == distinct[i] && r[j] == distinct[j];
    }
    forall e | e in r ensures e in MatchingPairs(store, query) {
      var k :| 0 <= k < |r| && r[k] == e;
      assert distinct[k] == e;
    }
    r
  }

  /** `order_by("title").distinct()` of the matching pairs: every matching pair once, ordered by
      title. */
  function SortedPairs(store: seq<Snapshot>, query: string): (r: seq<(string, string)>)
    ensures forall e :: e in r <==> e in MatchingPairs(store, query)
    ensures forall i, j :: 0 <= i < j < |r| ==> r[i] != r[j]
    ensures Sorted(r, ByTitle)
  {
    var candidates := Candidates(store, query);
    var sorted := SortBy(candidates, ByTitle);
    DistinctKeepsOrder(sorted, ByTitle);
    forall e ensures e in sorted <==> e in candidates {
      SortBySameElements(candidates, ByTitle, e);
    }
    Distinct(sorted)
  }

  /** The fallback lists the first `limit` matching pairs in title order: as many as there are
      distinct matching pairs, up to `limit`, and every matching pair left out sorts no earlier
      than any pair listed. */
  lemma SnapshotTitlesAreFirstMatches(store: seq<Snapshot>, query: string, limit: nat)
    ensures var r := SnapshotTitles(store, query, limit);
            var pairs := MatchingPairs(store, query);
            |r| == (if limit < |pairs| then limit else |pairs|)
    ensures var r := SnapshotTitles(store, query, limit);
            forall e, x :: e in MatchingPairs(store, query) && e !in r && x in r ==> SeqLe(ByTitle(x), ByTitle(e))
  {
    var distinct := SortedPairs(store, query);
    var r := SnapshotTitles(store, query, limit);
    assert r == Take(distinct, limit);
    SortedPairsCount(store, query);
    forall e, x | e in MatchingPairs(store, query) && e !in r && x in r
      ensures SeqLe(ByTitle(x), ByTitle(e))
    {
      TakeSortedIsFirst(distinct, ByTitle, limit, e, x);
    }
  }

  /** Every matching pair is listed once. */
  lemma SortedPairsCount(store: seq<Snapshot>, query: string)
    ensures |SortedPairs(store, query)| == |MatchingPairs(store, query)|
  {
    var distinct := SortedPairs(store, query);
    DistinctCardinality(distinct);
    assert (set x | x in distinct) == MatchingPairs(store, query);
  }

  /** The first `n` elements of a sorted sequence sort no later than the elements after them. */
  lemma TakeSortedIsFirst<T>(s: seq<T>, key: T -> seq<int>, n: nat, e: T, x: T)
    requires Sorted(s, key)
    requires e in s && e !in Take(s, n) && x in Take(s, n)
    ensures SeqLe(key(x), key(e))
  {
    var r := Take(s, n);
    var k :| 0 <= k < |s| && s[k] == e;
    var i :| 0 <= i < |r| && r[i] == x;
    assert s[i] == x;
  }

  /** A sequence without repeats has as many elements as its set of elements. */
  lemma {:induction false} DistinctCardinality<T>(s: seq<T>)
    requires forall i, j :: 0 <= i < j < |s| ==> s[i] != s[j]
    ensures |set x | x in s| == |s|
    decreases |s|
  {
    if s != [] {
      var init := s[..|s| - 1];
      DistinctCardinality(init);
      assert s == init + [s[|s| - 1]];
      assert (set x | x in s) == (set x | x in init) + {s[|s| - 1]};
    }
  }

  /** Dropping repeats keeps a sorted sequence sorted. */
  lemma DistinctKeepsOrder<T(!new)>(s: seq<T>, key: T -> seq<int>)
    requires Sorted(s, key)
    ensures Sorted(Distinct(s), key)
    decreases |s|
  {
    if s != [] {
      var init := s[..|s| - 1];
      assert Sorted(init, key) by {
        forall i, j | 0 <= i < j < |init| ensures SeqLe(key(init[i]), key(init[j])) {
          assert init[i] == s[i] && init[j] == s[j];
        }
      }
      DistinctKeepsOrder(init, key);
      var d := Distinct(init);
      forall i | 0 <= i < |d| ensures SeqLe(key(d[i]), key(s[|s| - 1])) {
        assert d[i] in d;
        var k :| 0 <= k < |init| && init[k] == d[i];
        assert s[k] == d[i];
      }
    }
  }

  /** The (fiche id, title value) pairs `fetch_recipe_titles` lists before normalizing them:
      the limit is clamped to 1..100 and the query stripped before the fiches database is asked
      (`read` stands for it); its rows with a title are taken in order; when it is missing or
      fails, the titled pairs of the local snapshot fallback are taken instead. */
  function TitleSources(store: seq<Snapshot>, query: string, limit: int,
                        read: (string, int) -> TitleRead): (r: seq<(Option<string>, Json)>)
    ensures forall i :: 0 <= i < |r| ==> Truthy(r[i].1)
    ensures var q := Strip(query);
            var n := Clamp(limit, 1, MaxTitleLimit);
            && (read(q, n).TitleRows? ==> |r| <= |read(q, n).rows|)
            && (!read(q, n).TitleRows? ==> |r| <= n)
  {
    var q := Strip(query);
    var n := Clamp(limit, 1, MaxTitleLimit);
    match read(q, n)
    case TitleRows(rows) => Map(Filter(rows, HasTitle), RowSource)
    case _ => FallbackSources(SnapshotTitles(store, q, n))
  }

  /** The fallback's pairs with a non-empty title, as (id text, title) values. */
  function FallbackSources(pairs: seq<(string, string)>): (r: seq<(Option<string>, Json)>)
    ensures |r| <= |pairs|
    ensures forall i :: 0 <= i < |r| ==> Truthy(r[i].1)
  {
    var titled := Filter(pairs, PairHasTitle);
    assert forall i :: 0 <= i < |titled| ==> titled[i].1 != "";
    Map(titled, PairSource)
  }

  function RowSource(row: TitleRow): (Option<string>, Json) {
    (row.id, row.title)
  }

  predicate PairHasTitle(e: (string, string)) {
    e.1 != ""
  }

  /** `str(fiche_product_id)` and the title of a fallback pair. */
  function PairSource(e: (string, string)): (Option<string>, Json) {
    (Some(e.0), JStr(e.1))
  }

  /** `fetch_recipe_titles` as written: every listed title goes through `_normalize_title` as
      written, so at most `limit` (clamped) entries, or one per database row. */
  function FetchTitles(show: Json -> string, store: seq<Snapshot>, query: string, limit: int,
                       read: (string, int) -> TitleRead): (r: seq<TitleEntry>)
    ensures var q := Strip(query);
            var n := Clamp(limit, 1, MaxTitleLimit);
            && (read(q, n).TitleRows? ==> |r| <= |read(q, n).rows|)
            && (!read(q, n).TitleRows? ==> |r| <= n)
  {
    Map(TitleSources(store, query, limit, read), AsWrittenEntry(show))
  }

  /** One listed entry, its title normalized as written. */
  function AsWrittenEntry(show: Json -> string): ((Option<string>, Json)) -> TitleEntry {
    (e: (Option<string>, Json)) => TitleEntry(e.0, NormalizeTitleAsWritten(show, e.1))
  }

  /** One listed entry, its title normalized with the corrected order. */
  function CorrectedEntry(show: Json -> string): ((Option<string>, Json)) -> TitleEntry {
    (e: (Option<string>, Json)) => TitleEntry(e.0, NormalizeTitle(show, e.1))
  }

  /** The listing with the corrected normalization: every listed title is stripped. */
  function FetchTitlesCorrected(show: Json -> string, store: seq<Snapshot>, query: string, limit: int,
                                read: (string, int) -> TitleRead): (r: seq<TitleEntry>)
    ensures forall i :: 0 <= i < |r| ==> IsStripped(r[i].title)
  {
    Map(TitleSources(store, query, limit, read), CorrectedEntry(show))
  }

  /** Both listings name the same fiches in the same order, and list the same titles when no
      title read carries the mojibake mark. */
  lemma FetchTitlesCorrectedAgrees(show: Json -> string, store: seq<Snapshot>, query: string, limit: int,
                                   read: (string, int) -> TitleRead)
    ensures var a := FetchTitles(show, store, query, limit, read);
            var c := FetchTitlesCorrected(show, store, query, limit, read);
            |a| == |c| && forall i :: 0 <= i < |a| ==> a[i].ficheProductId == c[i].ficheProductId
    ensures var src := TitleSources(store, query, limit, read);
            (forall i :: 0 <= i < |src| ==> Mark !in Str(src[i].1, show)) ==>
              FetchTitles(show, store, query, limit, read) == FetchTitlesCorrected(show, store, query, limit, read)
  {
    EntriesAgree(show, TitleSources(store, query, limit, read));
  }

  /** Entry by entry, the two normalizations keep the ids and agree on unmarked titles. */
  lemma EntriesAgree(show: Json -> string, src: seq<(Option<string>, Json)>)
    ensures var a := Map(src, AsWrittenEntry(show));
            var c := Map(src, CorrectedEntry(show));
            |a| == |c| && forall i :: 0 <= i < |a| ==> a[i].ficheProductId == c[i].ficheProductId
    ensures (forall i :: 0 <= i < |src| ==> Mark !in Str(src[i].1, show)) ==>
              Map(src, AsWrittenEntry(show)) == Map(src, CorrectedEntry(show))
  {
    if forall i :: 0 <= i < |src| ==> Mark !in Str(src[i].1, show) {
      var a := Map(src, AsWrittenEntry(show));
      var c := Map(src, CorrectedEntry(show));
      forall i | 0 <= i < |a| ensures a[i] == c[i] {
        NormalizeTitleAgreesWithoutMojibake(show, src[i].1);
      }
    }
  }

  /** The database path lists its titled rows in their order: the i-th entry is the i-th row
      with a title, with that row's id and its title normalized as written. */
  lemma DatabaseTitlesAreRows(show: Json -> string, store: seq<Snapshot>, query: string, limit: int,
                              read: (string, int) -> TitleRead)
    requires read(Strip(query), Clamp(limit, 1, MaxTitleLimit)).TitleRows?
    ensures var rows := Filter(read(Strip(query), Clamp(limit, 1, MaxTitleLimit)).rows, HasTitle);
            var r := FetchTitles(show, store, query, limit, read);
            && |r| == |rows|
            && forall i :: 0 <= i < |r| ==>
                 && r[i].ficheProductId == rows[i].id
                 && Truthy(rows[i].title)
                 && r[i].title == NormalizeTitleAsWritten(show, rows[i].title)
  {
  }

  /** Without a database answer the snapshot fallback is listed: the i-th entry is the i-th
      titled pair of `SnapshotTitles`, its id as text and its title normalized as written. */
  lemma FallbackTitlesAreSnapshotPairs(show: Json -> string, store: seq<Snapshot>, query: string, limit: int,
                                       read: (string, int) -> TitleRead)
    requires !read(Strip(query), Clamp(limit, 1, MaxTitleLimit)).TitleRows?
    ensures var pairs := Filter(SnapshotTitles(store, Strip(query), Clamp(limit, 1, MaxTitleLimit)), PairHasTitle);
            var r := FetchTitles(show, store, query, limit, read);
            && |r| == |pairs|
            && forall i :: 0 <= i < |r| ==>
                 && r[i].ficheProductId == Some(pairs[i].0)
                 && pairs[i].1 != ""
                 && r[i].title == NormalizeTitleAsWritten(show, JStr(pairs[i].1))
  {
  }
}
