/** Importing recipe snapshots from the fiches application
    (backend/apps/integration/fiches_snapshots.py), from a v1.1 export envelope or from rows of
    the fiches database. Snapshots are content-addressed: a fiche becomes a new snapshot only
    when its (fiche id, payload hash) pair is not stored yet. Every fiche read lands in exactly
    one counter. */
module FichesSnapshots {

  import opened Wrappers
  import opened Text
  import opened Json
  import opened Host
  import opened Seqs
  import opened Snapshots
  import opened FichesCommon

  // ---------------------------------------------------------------------------------------
  // The v1.1 payload

  /** The eleven keys of a v1.1 snapshot payload. */
  const V11Keys: set<string> := {"title", "category", "portions", "language", "allergens", "ingredients",
                                 "procedure_steps", "haccp_profiles", "storage_profiles", "label_hints", "warnings"}

  /** The keys whose missing or falsy value becomes `[]`. */
  const V11ListKeys: set<string> := {"allergens", "ingredients", "procedure_steps", "haccp_profiles",
                                     "storage_profiles", "warnings"}

  /** The keys copied as they are, None when missing. */
  const V11PlainKeys: set<string> := {"category", "portions", "language", "label_hints"}

  /** One field of a normalized payload. */
  function V11Field(fiche: Json, k: string): Json {
    if k == "title" then Or(Get(fiche, k), JStr(""))
    else if k in V11ListKeys then Or(Get(fiche, k), JList([]))
    else Get(fiche, k)
  }

  /** `_normalize_fiche_payload_from_v11`: exactly the eleven keys; a falsy title becomes "",
      a falsy list field `[]`, the rest are copied. */
  function NormalizeV11(fiche: Json): (r: Json)
    ensures r.JObj? && r.fields.Keys == V11Keys
    ensures r.fields["title"] == (if Truthy(Get(fiche, "title")) then Get(fiche, "title") else JStr(""))
  {
    JObj(map k | k in V11Keys :: V11Field(fiche, k))
  }

  /** A missing or falsy list field of the payload becomes `[]`; a truthy one is copied. */
  lemma NormalizeV11ListFields(fiche: Json)
    ensures forall k :: k in V11ListKeys ==>
              && k in NormalizeV11(fiche).fields
              && NormalizeV11(fiche).fields[k] == (if Truthy(Get(fiche, k)) then Get(fiche, k) else JList([]))
  {
  }

  /** The other fields are copied as they are, None when missing. */
  lemma NormalizeV11PlainFields(fiche: Json)
    ensures forall k :: k in V11PlainKeys ==>
              k in NormalizeV11(fiche).fields && NormalizeV11(fiche).fields[k] == Get(fiche, k)
  {
  }

  /** Normalizing a normalized payload changes nothing, so a fiche exported again from its own
      snapshot payload hashes the same. */
  lemma NormalizeV11Idempotent(fiche: Json)
    ensures NormalizeV11(NormalizeV11(fiche)) == NormalizeV11(fiche)
  {
    var n := NormalizeV11(fiche);
    forall k | k in V11Keys ensures V11Field(n, k) == V11Field(fiche, k) {
      assert Get(n, k) == V11Field(fiche, k);
    }
  }

  // ---------------------------------------------------------------------------------------
  // Content-addressed import

  /** What one fiche read gives: a payload that is not an object, an id that is not a UUID,
      or a snapshot candidate with the label an example would show. */
  datatype Parsed = BadPayload | BadId | Fiche(snap: Snapshot, shown: string)

  /** The identity of a snapshot: its fiche id and its payload hash. */
  function SnapKey(s: Snapshot): (Uuid, string) {
    (s.ficheProductId, s.hash)
  }

  function Keys(store: seq<Snapshot>): set<(Uuid, string)> {
    set s | s in store :: SnapKey(s)
  }

  /** The counters and examples of an import, and the snapshot store it writes to. */
  datatype Progress = Progress(store: seq<Snapshot>, created: nat, skipped: nat, invalidIds: nat,
                               invalidPayloads: nat, examples: seq<string>)

  function Counted(p: Progress): nat {
    p.created + p.skipped + p.invalidIds + p.invalidPayloads
  }

  const MaxExamples: nat := 5

  /** One fiche: counted as invalid, skipped when its key is stored, otherwise stored and
      counted as created, its label kept while fewer than five examples are kept. */
  function Step(p: Progress, x: Parsed): (r: Progress)
    ensures Counted(r) == Counted(p) + 1
    ensures |r.store| >= |p.store| && r.store[..|p.store|] == p.store
  {
    match x
    case BadPayload => p.(invalidPayloads := p.invalidPayloads + 1)
    case BadId => p.(invalidIds := p.invalidIds + 1)
    case Fiche(snap, shown) =>
      if SnapKey(snap) in Keys(p.store) then p.(skipped := p.skipped + 1)
      else
        p.(store := p.store + [snap], created := p.created + 1,
           examples := if |p.examples| < MaxExamples then p.examples + [shown] else p.examples)
  }

  function Min(a: int, b: int): int {
    if a <= b then a else b
  }

  /** The labels of the fiches a run creates, in order: a fiche is created when its key is
      neither among `keys` nor taken by an earlier fiche of the run. */
  function CreatedLabels(keys: set<(Uuid, string)>, xs: seq<Parsed>): seq<string>
    decreases |xs|
  {
    if xs == [] then []
    else
      match xs[0]
      case Fiche(snap, shown) =>
        if SnapKey(snap) in keys then CreatedLabels(keys, xs[1..])
        else [shown] + CreatedLabels(keys + {SnapKey(snap)}, xs[1..])
      case _ => CreatedLabels(keys, xs[1..])
  }

  /** All fiches in order. The examples are the labels of the first five fiches created,
      in the order they were created. */
  function Run(p: Progress, xs: seq<Parsed>): (r: Progress)
    ensures Counted(r) == Counted(p) + |xs|
    ensures |r.store| == |p.store| + (r.created - p.created) && r.created >= p.created
    ensures r.store[..|p.store|] == p.store
    ensures |CreatedLabels(Keys(p.store), xs)| == r.created - p.created
    ensures |p.examples| <= MaxExamples ==>
              r.examples == Take(p.examples + CreatedLabels(Keys(p.store), xs), MaxExamples)
    decreases |xs|
  {
    if xs == [] then p
    else
      var q := Step(p, xs[0]);
      var r := Run(q, xs[1..]);
      PrefixOfPrefix(p.store, q.store, r.store);
      RunStepLabels(p, xs);
      r
  }

  /** One step of `Run`'s examples: the first fiche's label, when it is created, joins the
      examples ahead of the rest's labels. */
  lemma RunStepLabels(p: Progress, xs: seq<Parsed>)
    requires xs != []
    ensures var q := Step(p, xs[0]);
            && |CreatedLabels(Keys(p.store), xs)| == (q.created - p.created) + |CreatedLabels(Keys(q.store), xs[1..])|
            && (|p.examples| <= MaxExamples ==>
                  Take(p.examples + CreatedLabels(Keys(p.store), xs), MaxExamples)
                  == Take(q.examples + CreatedLabels(Keys(q.store), xs[1..]), MaxExamples))
  {
    match xs[0]
    case Fiche(snap, shown) =>
      if SnapKey(snap) !in Keys(p.store) {
        KeysAppend(p.store, snap);
        if |p.examples| <= MaxExamples {
          CreatedStepLabels(p.examples, shown, CreatedLabels(Keys(p.store + [snap]), xs[1..]));
        }
      }
    case _ =>
  }

  /** Adding a created fiche's label to the examples while fewer than five are kept does not
      change the first five labels overall. */
  lemma CreatedStepLabels(examples: seq<string>, shown: string, rest: seq<string>)
    requires |examples| <= MaxExamples
    ensures var next := if |examples| < MaxExamples then examples + [shown] else examples;
            Take(examples + ([shown] + rest), MaxExamples) == Take(next + rest, MaxExamples)
  {
    if |examples| < MaxExamples {
      assert examples + ([shown] + rest) == (examples + [shown]) + rest;
    } else {
      TakeCapped(examples, [shown] + rest, MaxExamples);
      TakeCapped(examples, rest, MaxExamples);
    }
  }

  /** Appending a snapshot adds its key. */
  lemma KeysAppend(store: seq<Snapshot>, snap: Snapshot)
    ensures Keys(store + [snap]) == Keys(store) + {SnapKey(snap)}
  {
    var t := store + [snap];
    forall k | k in Keys(t) ensures k in Keys(store) + {SnapKey(snap)} {
      var s :| s in t && SnapKey(s) == k;
      var i :| 0 <= i < |t| && t[i] == s;
      if i < |store| {
        assert store[i] == s;
      }
    }
    forall k | k in Keys(store) ensures k in Keys(t) {
      var s :| s in store && SnapKey(s) == k;
      var i :| 0 <= i < |store| && store[i] == s;
      assert t[i] == s;
    }
    assert t[|store|] == snap;
  }

  /** Once `a` fills the cap, whatever follows is cut off. */
  lemma TakeCapped<T>(a: seq<T>, b: seq<T>, n: nat)
    requires |a| == n
    ensures Take(a + b, n) == a
  {
    assert (a + b)[..n] == a;
  }

  lemma PrefixOfPrefix<T>(a: seq<T>, b: seq<T>, c: seq<T>)
    requires |a| <= |b| <= |c| && b[..|a|] == a && c[..|b|] == b
    ensures c[..|a|] == a
  {
    assert c[..|a|] == c[..|b|][..|a|];
  }

  /** After the run every well-formed fiche has its snapshot stored, whether created now or
      found existing. */
  lemma {:induction false} RunStoresEveryFiche(p: Progress, xs: seq<Parsed>)
    ensures var r := Run(p, xs);
            forall i :: 0 <= i < |xs| && xs[i].Fiche? ==> SnapKey(xs[i].snap) in Keys(r.store)
    decreases |xs|
  {
    if xs != [] {
      var q := Step(p, xs[0]);
      var r := Run(q, xs[1..]);
      RunStoresEveryFiche(q, xs[1..]);
      if xs[0].Fiche? && SnapKey(xs[0].snap) !in Keys(p.store) {
        assert q.store[|p.store|] == xs[0].snap;
      }
      KeysGrow(p.store, q.store);
      KeysGrow(q.store, r.store);
      assert forall i :: 1 <= i < |xs| ==> xs[i] == xs[1..][i - 1];
    }
  }

  /** Extending a store keeps every key. */
  lemma KeysGrow(a: seq<Snapshot>, b: seq<Snapshot>)
    requires |a| <= |b| && b[..|a|] == a
    ensures Keys(a) <= Keys(b)
  {
    forall k | k in Keys(a) ensures k in Keys(b) {
      var s :| s in a && SnapKey(s) == k;
      var i :| 0 <= i < |a| && a[i] == s;
      assert b[i] == s;
    }
  }

  /** No two snapshots of the store share a (fiche id, payload hash) key. */
  predicate UniqueKeys(store: seq<Snapshot>) {
    forall i, j :: 0 <= i < j < |store| ==> SnapKey(store[i]) != SnapKey(store[j])
  }

  /** One fiche stores a snapshot only under a key not stored before. */
  lemma StepKeepsKeysUnique(p: Progress, x: Parsed)
    requires UniqueKeys(p.store)
    ensures UniqueKeys(Step(p, x).store)
  {
    var q := Step(p, x);
    if |q.store| > |p.store| {
      assert x.Fiche? && SnapKey(x.snap) !in Keys(p.store);
      assert q.store == p.store + [x.snap];
      forall i | 0 <= i < |p.store| ensures SnapKey(q.store[i]) != SnapKey(q.store[|p.store|]) {
        assert q.store[i] == p.store[i];
        assert SnapKey(p.store[i]) in Keys(p.store);
      }
    }
  }

  /** A new snapshot is stored only for a key not stored before, and never twice for one key:
      the uniqueness of (fiche id, payload hash) is kept. */
  lemma {:induction false} RunKeepsKeysUnique(p: Progress, xs: seq<Parsed>)
    requires UniqueKeys(p.store)
    ensures UniqueKeys(Run(p, xs).store)
    decreases |xs|
  {
    if xs != [] {
      var q := Step(p, xs[0]);
      StepKeepsKeysUnique(p, xs[0]);
      RunKeepsKeysUnique(q, xs[1..]);
      assert Run(p, xs) == Run(q, xs[1..]);
    }
  }

  /** When every candidate's key is already stored, nothing is created and the store is
      unchanged. */
  lemma {:induction false} RunStoredCreatesNothing(p: Progress, xs: seq<Parsed>)
    requires forall i :: 0 <= i < |xs| && xs[i].Fiche? ==> SnapKey(xs[i].snap) in Keys(p.store)
    ensures Run(p, xs).created == p.created && Run(p, xs).store == p.store
    decreases |xs|
  {
    if xs != [] {
      var q := Step(p, xs[0]);
      assert q.store == p.store;
      assert forall i :: 1 <= i < |xs| ==> xs[i] == xs[1..][i - 1];
      RunStoredCreatesNothing(q, xs[1..]);
    }
  }

  /** The outcome of an import: the `{"ok": False, "detail": ...}` of a rejected request, the
      `ValueError` a fiche's `updated_at` raised, or the counters of a completed one. */
  datatype ImportResult =
    | ImportFailed(detail: string)
    | ImportRaised(error: string)
    | ImportOk(totalRead: nat, created: nat, skipped: nat, invalidIds: nat, invalidPayloads: nat, examples: seq<string>)

  /** The result dictionary the import views see. */
  function ResultJson(r: ImportResult): (j: Json)
    ensures Truthy(Get(j, "ok")) <==> r.ImportOk?
    ensures r.ImportFailed? ==> Get(j, "detail") == JStr(r.detail)
    ensures r.ImportRaised? ==> Get(j, "detail") == JStr(r.error)
  {
    match r
    case ImportFailed(detail) => JObj(map["ok" := JBool(false), "detail" := JStr(detail)])
    case ImportRaised(error) => JObj(map["detail" := JStr(error)])  // the failed batch's record
    case ImportOk(total, created, skipped, ids, payloads, examples) =>
      JObj(map["ok" := JBool(true), "total_read" := JInt(total), "created" := JInt(created),
               "skipped_existing" := JInt(skipped), "invalid_ids" := JInt(ids),
               "invalid_payloads" := JInt(payloads), "examples" := JList(Map(examples, (e: string) => JStr(e)))])
  }

  /** Runs the parsed fiches against a store: the result counters and the new store. The
      examples are the labels of the first five fiches created. */
  function Finish(store: seq<Snapshot>, xs: seq<Parsed>): (r: (ImportResult, seq<Snapshot>))
    ensures r.0.ImportOk? && r.0.totalRead == |xs|
    ensures r.0.created + r.0.skipped + r.0.invalidIds + r.0.invalidPayloads == r.0.totalRead
    ensures |r.0.examples| == Min(MaxExamples, r.0.created) && |r.1| == |store| + r.0.created
    ensures r.1[..|store|] == store
    ensures r.0.examples == Take(CreatedLabels(Keys(store), xs), MaxExamples)
  {
    var p := Run(Progress(store, 0, 0, 0, 0, []), xs);
    (ImportOk(|xs|, p.created, p.skipped, p.invalidIds, p.invalidPayloads, p.examples), p.store)
  }

  /** Does reading some fiche raise? */
  predicate SomeRaises(xs: seq<Result<Parsed, string>>) {
    exists i :: 0 <= i < |xs| && xs[i].Err?
  }

  /** The position of the first fiche whose read raises, or the count when none does. */
  function FirstRaise(xs: seq<Result<Parsed, string>>): (k: nat)
    ensures k <= |xs| && (k < |xs| <==> SomeRaises(xs))
    ensures forall i :: 0 <= i < k ==> xs[i].Ok?
    ensures k < |xs| ==> xs[k].Err?
    decreases |xs|
  {
    if xs == [] then 0
    else if xs[0].Err? then 0
    else
      var k := FirstRaise(xs[1..]);
      assert forall i :: 1 <= i <= k ==> xs[i] == xs[1..][i - 1];
      assert SomeRaises(xs[1..]) ==> SomeRaises(xs) by {
        if SomeRaises(xs[1..]) {
          var i :| 0 <= i < |xs[1..]| && xs[1..][i].Err?;
          assert xs[i + 1].Err?;
        }
      }
      1 + k
  }

  /** The fiches of reads none of which raised. */
  function Reads(xs: seq<Result<Parsed, string>>): (r: seq<Parsed>)
    requires forall i :: 0 <= i < |xs| ==> xs[i].Ok?
    ensures |r| == |xs| && forall i :: 0 <= i < |xs| ==> r[i] == xs[i].value
  {
    seq(|xs|, i requires 0 <= i < |xs| && xs[i].Ok? => xs[i].value)
  }

  /** The fiches in order until one raises. With none raising, the counters of `Finish`;
      otherwise the exception, and the snapshots created before it stay stored (the import runs
      outside any transaction) while no later fiche is read. */
  function FinishReads(store: seq<Snapshot>, xs: seq<Result<Parsed, string>>): (r: (ImportResult, seq<Snapshot>))
    ensures !SomeRaises(xs) ==> r == Finish(store, Reads(xs))
    ensures |r.1| >= |store| && r.1[..|store|] == store
    ensures SomeRaises(xs) ==> r.0 == ImportRaised(xs[FirstRaise(xs)].error)
    ensures SomeRaises(xs) ==>
              && |r.1| == |store| + |CreatedLabels(Keys(store), Reads(xs[..FirstRaise(xs)]))|
              && forall i :: 0 <= i < FirstRaise(xs) && xs[i].value.Fiche? ==> SnapKey(xs[i].value.snap) in Keys(r.1)
  {
    var k := FirstRaise(xs);
    if k < |xs| then
      StoredBeforeRaise(store, xs);
      (ImportRaised(xs[k].error), Finish(store, Reads(xs[..k])).1)
    else Finish(store, Reads(xs))
  }

  /** The store the fiches before the first raise leave: it grows by the ones created, and
      holds every one of them. */
  lemma StoredBeforeRaise(store: seq<Snapshot>, xs: seq<Result<Parsed, string>>)
    requires SomeRaises(xs)
    ensures var k := FirstRaise(xs);
            var after := Finish(store, Reads(xs[..k])).1;
            && |after| == |store| + |CreatedLabels(Keys(store), Reads(xs[..k]))|
            && forall i :: 0 <= i < k && xs[i].value.Fiche? ==> SnapKey(xs[i].value.snap) in Keys(after)
  {
    var k := FirstRaise(xs);
    var before := Reads(xs[..k]);
    RunStoresEveryFiche(Progress(store, 0, 0, 0, 0, []), before);
    forall i | 0 <= i < k && xs[i].value.Fiche?
      ensures SnapKey(xs[i].value.snap) in Keys(Finish(store, before).1)
    {
      assert before[i] == xs[i].value;
    }
  }

  // ---------------------------------------------------------------------------------------
  // The v1.1 envelope

  /** A category value as the snapshot keeps it. */
  function CategoryOf(show: Json -> string, v: Json): Option<string> {
    if v.JNull? then None else Some(Str(v, show))
  }

  /** The `source_updated_at` a parse that did not raise gives. */
  function StampTime(p: DatetimeParse): Option<int> {
    if p.Datetime? then Some(p.t) else None
  }

  /** How a fiche's `updated_at` parses; a falsy one is not parsed. */
  function V11Stamp(host: Host, fiche: Json): DatetimeParse {
    if Truthy(Get(fiche, "updated_at")) then host.parseDatetime(Str(Get(fiche, "updated_at"), host.show)) else NoDatetime
  }

  /** One fiche of an envelope, or the `ValueError` its `updated_at` raises once its id has
      passed. */
  function ParseV11(host: Host, fiche: Json): (r: Result<Parsed, string>)
    ensures r.Err? <==> fiche.JObj? && host.parseUuid(Str(Get(fiche, "fiche_id"), host.show)).Some?
                        && V11Stamp(host, fiche).DatetimeInvalid?
    ensures r.Err? ==> r.error == V11Stamp(host, fiche).message
    ensures r.Ok? ==> (r.value.BadPayload? <==> !fiche.JObj?)
    ensures r.Ok? ==> (r.value.BadId? <==> fiche.JObj? && host.parseUuid(Str(Get(fiche, "fiche_id"), host.show)).None?)
    ensures r.Ok? && r.value.Fiche? ==>
              var snap := r.value.snap;
              && snap.payload == NormalizeV11(fiche) && snap.hash == host.snapshotHash(NormalizeV11(fiche))
              && snap.ficheProductId == host.parseUuid(Str(Get(fiche, "fiche_id"), host.show)).value
              && IsStripped(snap.title)
              && snap.sourceUpdatedAt == (if V11Stamp(host, fiche).Datetime? then Some(V11Stamp(host, fiche).t) else None)
              && r.value.shown == (if snap.title != "" then snap.title else snap.ficheProductId)
  {
    if !fiche.JObj? then Ok(BadPayload)
    else
      match host.parseUuid(Str(Get(fiche, "fiche_id"), host.show))
      case None => Ok(BadId)
      case Some(id) =>
        var payload := NormalizeV11(fiche);
        var title := Strip(Str(Or(Get(fiche, "title"), JStr("")), host.show));
        match V11Stamp(host, fiche)
        case DatetimeInvalid(message) => Err(message)
        case _ =>
          var updated := StampTime(V11Stamp(host, fiche));
          var snap := Snapshot(id, title, CategoryOf(host.show, Get(fiche, "category")), FicheDecimal(Get(fiche, "portions")),
                               host.snapshotHash(payload), updated, payload);
          Ok(Fiche(snap, if title != "" then title else id))
  }

  function ParseV11With(host: Host): Json -> Result<Parsed, string> {
    f => ParseV11(host, f)
  }

  /** The reads of an envelope's fiches, in order (none when `fiches` is not a list). */
  function V11Reads(host: Host, envelope: Json): (r: seq<Result<Parsed, string>>)
    ensures Get(envelope, "fiches").JList? ==>
              |r| == |Get(envelope, "fiches").items|
              && forall i :: 0 <= i < |r| ==> r[i] == ParseV11(host, Get(envelope, "fiches").items[i])
  {
    if Get(envelope, "fiches").JList? then Map(Get(envelope, "fiches").items, ParseV11With(host)) else []
  }

  const UnsupportedVersion: string := "Unsupported export_version. Expected '1.1'."
  const UnsupportedSource: string := "Unsupported source_app. Expected 'fiches-recettes'."
  const FichesNotArray: string := "Invalid envelope: 'fiches' must be an array."

  /** `str(envelope.get(k) or "").strip()`. */
  function EnvelopeText(show: Json -> string, envelope: Json, k: string): string {
    Strip(Str(Or(Get(envelope, k), JStr("")), show))
  }

  /** Export version "1.1", an empty or `fiches-recettes` source app, and a list of fiches. */
  predicate EnvelopeAccepted(show: Json -> string, envelope: Json) {
    && EnvelopeText(show, envelope, "export_version") == "1.1"
    && (EnvelopeText(show, envelope, "source_app") == "" || EnvelopeText(show, envelope, "source_app") == "fiches-recettes")
    && Get(envelope, "fiches").JList?
  }

  /** The envelope checks, in order: the fiches of an accepted envelope, or the message of
      the first check that fails. */
  function CheckEnvelope(show: Json -> string, envelope: Json): (r: Result<seq<Json>, string>)
    ensures EnvelopeText(show, envelope, "export_version") != "1.1" ==> r == Err(UnsupportedVersion)
    ensures r.Ok? <==> EnvelopeAccepted(show, envelope)
    ensures r.Ok? ==> r.value == Get(envelope, "fiches").items
  {
    if EnvelopeText(show, envelope, "export_version") != "1.1" then Err(UnsupportedVersion)
    else
      var app := EnvelopeText(show, envelope, "source_app");
      if app != "" && app != "fiches-recettes" then Err(UnsupportedSource)
      else if !Get(envelope, "fiches").JList? then Err(FichesNotArray)
      else Ok(Get(envelope, "fiches").items)
  }

  /** `import_recipe_snapshots_from_v11_envelope`: only export version "1.1", an empty or
      `fiches-recettes` source app and a list of fiches are accepted; a rejected envelope
      imports nothing. A fiche whose `updated_at` raises stops the import there. */
  function ImportEnvelope(host: Host, store: seq<Snapshot>, envelope: Json): (r: (ImportResult, seq<Snapshot>))
    ensures EnvelopeText(host.show, envelope, "export_version") != "1.1" ==> r == (ImportFailed(UnsupportedVersion), store)
    ensures r.0.ImportFailed? <==> !EnvelopeAccepted(host.show, envelope)
    ensures r.0.ImportRaised? <==> EnvelopeAccepted(host.show, envelope) && SomeRaises(V11Reads(host, envelope))
    ensures r.0.ImportOk? <==> EnvelopeAccepted(host.show, envelope) && !SomeRaises(V11Reads(host, envelope))
    ensures r.0.ImportFailed? ==> r.1 == store
    ensures |r.1| >= |store| && r.1[..|store|] == store
  {
    match CheckEnvelope(host.show, envelope)
    case Err(e) => (ImportFailed(e), store)
    case Ok(fiches) => FinishReads(store, V11Reads(host, envelope))
  }

  /** An accepted envelope either raises on a fiche or reads every fiche once: each is
      created, skipped as existing, or counted invalid, and at most five examples are
      reported. */
  lemma ImportEnvelopeCounts(host: Host, store: seq<Snapshot>, envelope: Json)
    requires EnvelopeAccepted(host.show, envelope)
    ensures var r := ImportEnvelope(host, store, envelope).0;
            && (r.ImportOk? || r.ImportRaised?)
            && (r.ImportOk? ==>
                  && r.totalRead == |Get(envelope, "fiches").items|
                  && r.created + r.skipped + r.invalidIds + r.invalidPayloads == r.totalRead
                  && |r.examples| <= MaxExamples)
  {
    var xs := V11Reads(host, envelope);
    if !SomeRaises(xs) {
      assert ImportEnvelope(host, store, envelope) == Finish(store, Reads(xs));
    }
  }

  /** Importing the same envelope twice creates nothing the second time: every fiche is then
      either invalid or skipped as existing. */
  lemma ImportEnvelopeTwice(host: Host, store: seq<Snapshot>, envelope: Json)
    requires ImportEnvelope(host, store, envelope).0.ImportOk?
    ensures var first := ImportEnvelope(host, store, envelope);
            var second := ImportEnvelope(host, first.1, envelope);
            second.0.ImportOk? && second.0.created == 0 && second.1 == first.1
  {
    var xs := V11Reads(host, envelope);
    FinishTwice(store, Reads(xs));
  }

  /** Running the same fiches against the store the first run left creates nothing. */
  lemma FinishTwice(store: seq<Snapshot>, xs: seq<Parsed>)
    ensures var first := Finish(store, xs);
            Finish(first.1, xs).0.created == 0 && Finish(first.1, xs).1 == first.1
  {
    var p := Run(Progress(store, 0, 0, 0, 0, []), xs);
    RunStoresEveryFiche(Progress(store, 0, 0, 0, 0, []), xs);
    RunStoredCreatesNothing(Progress(p.store, 0, 0, 0, 0, []), xs);
  }

  // ---------------------------------------------------------------------------------------
  // The fiches database

  /** How a `updated_at` column value reads: null, a timestamp, or text to parse. */
  datatype Stamp = NoStamp | At(t: int) | AtText(s: string)

  /** One row of the recipe query: id as text, title, data and update time. */
  datatype Row = Row(id: Json, title: Json, data: Json, updatedAt: Stamp)

  /** `str(title or payload.get("title") or fallback)`. */
  function RowLabel(show: Json -> string, title: Json, payload: Json, fallback: string): string {
    if Truthy(title) then Str(title, show) else if Truthy(Get(payload, "title")) then Str(Get(payload, "title"), show)
    else fallback
  }

  /** How a row's `updated_at` reads: only text is parsed, and empty text is not. */
  function RowStamp(host: Host, stamp: Stamp): DatetimeParse {
    match stamp
    case NoStamp => NoDatetime
    case At(t) => Datetime(t)
    case AtText(s) => if s == "" then NoDatetime else host.parseDatetime(s)
  }

  /** The data column as an object, if it is one or is text `json.loads` reads as one. */
  function RowPayload(host: Host, row: Row): Option<Json> {
    var loaded := if row.data.JStr? then host.loadJson(row.data.s) else Some(row.data);
    if loaded.Some? && loaded.value.JObj? then loaded else None
  }

  /** One row of the fiches database, or the `ValueError` its `updated_at` raises once the id
      and the payload have passed. Text data is parsed as JSON first; the payload is hashed as
      read, without the v1.1 normalization. */
  function ParseRow(host: Host, row: Row): (r: Result<Parsed, string>)
    ensures r.Err? <==> host.parseUuid(Str(row.id, host.show)).Some? && RowPayload(host, row).Some?
                        && RowStamp(host, row.updatedAt).DatetimeInvalid?
    ensures r.Err? ==> r.error == RowStamp(host, row.updatedAt).message
    ensures r.Ok? ==> (r.value.BadId? <==> host.parseUuid(Str(row.id, host.show)).None?)
    ensures r.Ok? ==> (r.value.BadPayload? <==> host.parseUuid(Str(row.id, host.show)).Some? && RowPayload(host, row).None?)
    ensures r.Ok? && r.value.Fiche? ==>
              var snap := r.value.snap;
              && snap.hash == host.snapshotHash(snap.payload) && snap.payload.JObj?
              && (row.data.JObj? ==> snap.payload == row.data)
              && snap.sourceUpdatedAt
                 == (if RowStamp(host, row.updatedAt).Datetime? then Some(RowStamp(host, row.updatedAt).t) else None)
  {
    match host.parseUuid(Str(row.id, host.show))
    case None => Ok(BadId)
    case Some(id) =>
      match RowPayload(host, row)
      case None => Ok(BadPayload)
      case Some(payload) =>
        match RowStamp(host, row.updatedAt)
        case DatetimeInvalid(message) => Err(message)
        case _ =>
          var updated := StampTime(RowStamp(host, row.updatedAt));
          var snap := Snapshot(id, Strip(RowLabel(host.show, row.title, payload, "")),
                               CategoryOf(host.show, Get(payload, "category")), FicheDecimal(Get(payload, "portions")),
                               host.snapshotHash(payload), updated, payload);
          Ok(Fiche(snap, RowLabel(host.show, row.title, payload, id)))
  }

  function ParseRowWith(host: Host): Row -> Result<Parsed, string> {
    row => ParseRow(host, row)
  }

  /** What reading the fiches database gave. */
  datatype DbRead = NotConfigured | ReadFailed(error: string) | Rows(rows: seq<Row>)

  const MaxSnapshotLimit: int := 5000

  /** `import_recipe_snapshots`: the query is stripped and the limit clamped to 1..5000 before
      the database is read (`fetch` stands for the query); an unconfigured or unreadable
      database imports nothing, and a row whose `updated_at` raises stops the import there. */
  function ImportFromDatabase(host: Host, store: seq<Snapshot>, query: string, limit: int,
                              fetch: (string, int) -> DbRead): (r: (ImportResult, seq<Snapshot>))
    ensures fetch(Strip(query), Clamp(limit, 1, MaxSnapshotLimit)).NotConfigured? ==>
              r == (ImportFailed("FICHES DB non configurato."), store)
    ensures fetch(Strip(query), Clamp(limit, 1, MaxSnapshotLimit)).ReadFailed? ==>
              r == (ImportFailed("Impossibile leggere DB fiches: " + fetch(Strip(query), Clamp(limit, 1, MaxSnapshotLimit)).error), store)
    ensures var read := fetch(Strip(query), Clamp(limit, 1, MaxSnapshotLimit));
            read.Rows? ==>
              && (r.0.ImportRaised? <==> SomeRaises(Map(read.rows, ParseRowWith(host))))
              && (r.0.ImportOk? <==> !SomeRaises(Map(read.rows, ParseRowWith(host))))
              && (r.0.ImportOk? ==>
                    && r.0.totalRead == |read.rows|
                    && r.0.created + r.0.skipped + r.0.invalidIds + r.0.invalidPayloads == r.0.totalRead)
              && |r.1| >= |store| && r.1[..|store|] == store
  {
    match fetch(Strip(query), Clamp(limit, 1, MaxSnapshotLimit))
    case NotConfigured => (ImportFailed("FICHES DB non configurato."), store)
    case ReadFailed(e) => (ImportFailed("Impossibile leggere DB fiches: " + e), store)
    case Rows(rows) => FinishReads(store, Map(rows, ParseRowWith(host)))
  }
}
