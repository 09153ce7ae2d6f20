/** Materialization of A2A file parts into room files under count, raw-byte and
    encoded-byte budgets (backend/a2a_adapter/artifact_storage.py).

    The repository does this job twice: `materialize_artifacts` walks typed
    artifacts, `materialize_inline_file_parts` walks message dictionaries. Each
    loop is modelled on its own, and the two are then compared. What fetching,
    decoding, validating and storing a part yields is data of the part. */
module ArtifactBudget {

  import opened Wrappers

  const MAX_FILE_PARTS: nat := 20
  const MAX_FILE_RAW_BYTES: nat := 50 * 1024 * 1024
  const MAX_TOTAL_RAW_BYTES: nat := 100 * 1024 * 1024
  const MAX_TOTAL_ENCODED_BYTES: nat := 139_810_136

  datatype Uri = NoUri | RoomUrl | Remote

  /** Bytes obtained, or why not. */
  datatype Bytes = Got(size: nat) | TooLarge | Broken

  /** The answer of `validate_agent_reference`: a stored record with its size,
      if that is an integer, and whether its id and digest are well formed. */
  datatype Reference = Untrusted | Trusted(size: Option<nat>, canonical: bool)

  /** A file descriptor. `encoded` is the length of its inline Base64 text, 0
      when it has none; `uri` is RoomUrl when it equals the content URL of the
      metadata's file id. */
  datatype File = File(
    encoded: nat, base64: Bytes,
    uri: Uri, fileId: string, declaredSize: nat,
    reference: Reference, fetched: Bytes, stored: StoreOutcome)

  datatype StoreOutcome = Stored(canonical: bool) | Transient | Permanent

  datatype Reason = SizeLimit | InvalidContent

  /** A part before and after: anything that is not a file, a file part with or
      without a usable descriptor, a canonical room reference without inline
      bytes, or a `file_unavailable` data part. A reference remembers the raw
      and encoded bytes it was counted with. */
  datatype Part =
    | Other(id: nat)
    | FilePart(file: Option<File>)
    | RoomFile(raw: nat, encoded: nat)
    | Unavailable(reason: Reason)

  /** The payload-free report. */
  datatype Report = Report(attempted: nat, stored: nat, unavailable: nat)

  datatype Totals = Totals(converted: nat, attempted: nat, raw: nat, encoded: nat, report: Report)

  // ----- shared helpers of the source

  /** `_decode_base64`: the per-file limits apply before and after decoding. */
  function DecodeBase64(f: File): (b: Bytes)
    ensures b.Got? ==> b.size <= MAX_FILE_RAW_BYTES
  {
    if f.encoded > 4 * ((MAX_FILE_RAW_BYTES + 2) / 3) then TooLarge
    else if f.base64.Got? && f.base64.size > MAX_FILE_RAW_BYTES then TooLarge
    else f.base64
  }

  /** `_failure_code` followed by `_public_failure_reason`, for bytes not obtained. */
  function BytesReason(b: Bytes): Reason {
    if b.TooLarge? then SizeLimit else InvalidContent
  }

  const STORE_ATTEMPTS: nat := 3

  /** `_store_with_retry` on the outcomes its attempts would have. */
  method StoreWithRetry(outcomes: seq<StoreOutcome>) returns (result: StoreOutcome, calls: nat)
    requires |outcomes| == STORE_ATTEMPTS
    ensures 1 <= calls <= STORE_ATTEMPTS && result == outcomes[calls - 1]
    ensures forall i :: 0 <= i < calls - 1 ==> outcomes[i].Transient?
    ensures result.Transient? ==> calls == STORE_ATTEMPTS
  {
    calls := 0;
    while true
      invariant calls < STORE_ATTEMPTS && forall i :: 0 <= i < calls ==> outcomes[i].Transient?
      decreases STORE_ATTEMPTS - calls
    {
      result := outcomes[calls];
      calls := calls + 1;
      if result.Stored? || calls >= STORE_ATTEMPTS || result.Permanent? {
        return;
      }
    }
  }

  // ----- materialize_artifacts

  function Attempt(t: Totals): Totals {
    t.(report := t.report.(attempted := t.report.attempted + 1))
  }

  function Fail(t: Totals, reason: Reason): (Totals, Part) {
    (t.(report := t.report.(unavailable := t.report.unavailable + 1)), Unavailable(reason))
  }

  function Succeed(t: Totals, raw: nat, encoded: nat): (Totals, Part) {
    (t.(converted := t.converted + 1, report := t.report.(stored := t.report.stored + 1)), RoomFile(raw, encoded))
  }

  /** Bytes are in hand: count them, then store them. */
  function StoreBytes(t: Totals, f: File, size: nat): (Totals, Part) {
    var t' := t.(raw := t.raw + size);
    if t'.raw > MAX_TOTAL_RAW_BYTES then Fail(t', SizeLimit)
    else if f.stored == Stored(true) then Succeed(t', size, f.encoded)
    else Fail(t', InvalidContent)
  }

  function ArtifactFile(t: Totals, f: File): (Totals, Part) {
    if f.encoded > 0 then
      var t' := t.(encoded := t.encoded + f.encoded);
      if t'.encoded > MAX_TOTAL_ENCODED_BYTES then Fail(t', SizeLimit)
      else
        var b := DecodeBase64(f);
        if b.Got? then StoreBytes(t', f, b.size) else Fail(t', BytesReason(b))
    else match f.uri
      case NoUri => Fail(t, InvalidContent)
      case RoomUrl =>
        if f.reference.Untrusted? || f.reference.size.None? then Fail(t, InvalidContent)
        else
          var t' := t.(raw := t.raw + f.reference.size.value);
          if t'.raw > MAX_TOTAL_RAW_BYTES then Fail(t', SizeLimit)
          else if !f.reference.canonical then Fail(t', InvalidContent)
          else Succeed(t', f.reference.size.value, 0)
      case Remote => if f.fetched.Got? then StoreBytes(t, f, f.fetched.size) else Fail(t, BytesReason(f.fetched))
  }

  /** One round of the part loop of `materialize_artifacts`. */
  function ArtifactPart(t: Totals, p: Part): (Totals, Part) {
    if !p.FilePart? then (t, p)
    else
      var t1 := Attempt(t);
      if t1.attempted >= MAX_FILE_PARTS then Fail(t1, SizeLimit)
      else
        var t2 := t1.(attempted := t1.attempted + 1);
        if p.file.None? then Fail(t2, InvalidContent) else ArtifactFile(t2, p.file.value)
  }

  function ArtifactParts(t: Totals, parts: seq<Part>): (r: (Totals, seq<Part>))
    ensures |r.1| == |parts|
  {
    if parts == [] then (t, [])
    else
      var n := |parts| - 1;
      var (t1, done) := ArtifactParts(t, parts[..n]);
      var (t2, p) := ArtifactPart(t1, parts[n]);
      (t2, done + [p])
  }

  function AllParts(t: Totals, lists: seq<seq<Part>>): (r: (Totals, seq<seq<Part>>))
    ensures |r.1| == |lists|
  {
    if lists == [] then (t, [])
    else
      var n := |lists| - 1;
      var (t1, done) := AllParts(t, lists[..n]);
      var (t2, parts) := ArtifactParts(t1, lists[n]);
      (t2, done + [parts])
  }

  /** The report dictionary both loops write into. */
  class ReportCard {
    var counts: Report
    constructor ()
      ensures counts == Report(0, 0, 0)
    {
      counts := Report(0, 0, 0);
    }
  }

  class Artifact {
    var parts: seq<Part>
    constructor (parts: seq<Part>)
      ensures this.parts == parts
    {
      this.parts := parts;
    }
  }

  ghost function PartLists(artifacts: seq<Artifact>): seq<seq<Part>>
    reads artifacts
  {
    seq(|artifacts|, i requires 0 <= i < |artifacts| reads artifacts => artifacts[i].parts)
  }

  /** The inner loop on one artifact: replaces parts in place. */
  method MaterializeArtifact(a: Artifact, t: Totals) returns (t': Totals)
    modifies a
    ensures (t', a.parts) == ArtifactParts(t, old(a.parts))
  {
    hide ArtifactPart;
    t' := t;
    ghost var before := a.parts;
    var slot := 0;
    while slot < |a.parts|
      invariant slot <= |a.parts| == |before|
      invariant a.parts[slot..] == before[slot..]
      invariant (t', a.parts[..slot]) == ArtifactParts(t, before[..slot])
    {
      var (t1, p) := ArtifactPart(t', a.parts[slot]);
      assert before[..slot + 1][..slot] == before[..slot];
      assert a.parts[slot] == a.parts[slot..][0] == before[slot];
      ghost var was := a.parts;
      t' := t1;
      a.parts := a.parts[slot := p];
      assert a.parts[..slot + 1] == was[..slot] + [p];
      assert a.parts[slot + 1..] == was[slot..][1..] == before[slot..][1..];
      slot := slot + 1;
    }
    assert before[..slot] == before && a.parts[..slot] == a.parts;
  }

  /** The outer loop over distinct artifacts. */
  method MaterializeArtifacts(artifacts: seq<Artifact>, convertedSoFar: nat, card: ReportCard)
    returns (converted: nat)
    requires forall i, j :: 0 <= i < j < |artifacts| ==> artifacts[i] != artifacts[j]
    modifies artifacts, card
    ensures var (t, lists) :=
              AllParts(Totals(convertedSoFar, convertedSoFar, 0, 0, old(card.counts)), old(PartLists(artifacts)));
            && converted == t.converted && card.counts == t.report
            && forall i :: 0 <= i < |artifacts| ==> artifacts[i].parts == lists[i]
  {
    var t := Totals(convertedSoFar, convertedSoFar, 0, 0, card.counts);
    ghost var t0 := t;
    ghost var before := PartLists(artifacts);
    var i := 0;
    while i < |artifacts|
      invariant i <= |artifacts|
      invariant forall j :: i <= j < |artifacts| ==> artifacts[j].parts == before[j]
      invariant t == AllParts(t0, before[..i]).0 && card.counts == t.report
      invariant forall j :: 0 <= j < i ==> artifacts[j].parts == AllParts(t0, before[..i]).1[j]
    {
      assert before[..i + 1][..i] == before[..i];
      t := MaterializeArtifact(artifacts[i], t);
      card.counts := t.report;
      i := i + 1;
    }
    assert before[..i] == before;
    return t.converted;
  }

  // ----- materialize_inline_file_parts

  /** What the inline loop carries: its totals, and how often each file id was
      already counted by the caller. */
  datatype Wallet = Wallet(totals: Totals, precounted: map<string, nat>)

  predicate Precounted(pre: map<string, nat>, f: File) {
    f.fileId in pre && pre[f.fileId] > 0 && f.uri.RoomUrl?
  }

  function Spend(pre: map<string, nat>, id: string): map<string, nat>
    requires id in pre && pre[id] > 0
  {
    if pre[id] == 1 then pre - {id} else pre[id := pre[id] - 1]
  }

  function Minus(a: nat, b: nat): nat {
    if a <= b then 0 else a - b
  }

  /** A pre-counted reference replaces the size it was counted with by the
      stored one; it uses no attempt and is not a conversion. */
  function PrecountedFile(w: Wallet, f: File): (Wallet, Part)
    requires Precounted(w.precounted, f)
  {
    var pre := Spend(w.precounted, f.fileId);
    var t := w.totals;
    if f.reference.Untrusted? || f.reference.size.None? then
      var (t', p) := Fail(t, InvalidContent); (Wallet(t', pre), p)
    else
      var size := f.reference.size.value;
      var t' := t.(raw := Minus(t.raw, f.declaredSize) + size);
      if t'.raw > MAX_TOTAL_RAW_BYTES then
        var (t2, p) := Fail(t', SizeLimit); (Wallet(t2, pre), p)
      else if !f.reference.canonical then
        var (t2, p) := Fail(t', InvalidContent); (Wallet(t2, pre), p)
      else
        (Wallet(t'.(report := t'.report.(stored := t'.report.stored + 1)), pre), RoomFile(size, 0))
  }

  function InlineFile(t: Totals, f: File): (Totals, Part) {
    if f.encoded > 0 then
      var t' := t.(encoded := t.encoded + f.encoded);
      if t'.encoded > MAX_TOTAL_ENCODED_BYTES then Fail(t', SizeLimit)
      else
        var b := DecodeBase64(f);
        if b.Got? then StoreBytes(t', f, b.size) else Fail(t', BytesReason(b))
    else match f.uri
      case NoUri => Fail(t, InvalidContent)
      case RoomUrl =>
        if f.reference.Untrusted? || f.reference.size.None? then Fail(t, InvalidContent)
        else
          var size := f.reference.size.value;
          // the conversion is counted before the limit is looked at
          var t' := t.(converted := t.converted + 1, raw := t.raw + size);
          if t'.raw > MAX_TOTAL_RAW_BYTES then Fail(t', SizeLimit)
          else if !f.reference.canonical then Fail(t', InvalidContent)
          else (t'.(report := t'.report.(stored := t'.report.stored + 1)), RoomFile(size, 0))
      case Remote => if f.fetched.Got? then StoreBytes(t, f, f.fetched.size) else Fail(t, BytesReason(f.fetched))
  }

  /** One round of the part loop of `materialize_inline_file_parts`. */
  function InlinePart(w: Wallet, p: Part): (Wallet, Part) {
    if !p.FilePart? then (w, p)
    else
      var w1 := w.(totals := Attempt(w.totals));
      if p.file.Some? && Precounted(w.precounted, p.file.value) then PrecountedFile(w1, p.file.value)
      else if w1.totals.attempted >= MAX_FILE_PARTS then
        var (t, q) := Fail(w1.totals, SizeLimit); (w1.(totals := t), q)
      else
        var t2 := w1.totals.(attempted := w1.totals.attempted + 1);
        var (t, q) := if p.file.None? then Fail(t2, InvalidContent) else InlineFile(t2, p.file.value);
        (w1.(totals := t), q)
  }

  function InlineParts(w: Wallet, parts: seq<Part>): (r: (Wallet, seq<Part>))
    ensures |r.1| == |parts|
  {
    if parts == [] then (w, [])
    else
      var n := |parts| - 1;
      var (w1, done) := InlineParts(w, parts[..n]);
      var (w2, p) := InlinePart(w1, parts[n]);
      (w2, done + [p])
  }

  function Recorded(r: Report, p: Part): Report {
    if p.RoomFile? then r.(stored := r.stored + 1) else r.(unavailable := r.unavailable + 1)
  }

  /** The budget dictionary, shared between calls and updated in place. */
  class Budget {
    var converted: nat
    var attempted: Option<nat>
    var raw: nat
    var encoded: nat
    var precounted: map<string, nat>

    constructor (convertedSoFar: nat)
      ensures converted == convertedSoFar && attempted == Some(convertedSoFar)
      ensures raw == encoded == 0 && precounted == map[]
    {
      converted, attempted, raw, encoded := convertedSoFar, Some(convertedSoFar), 0, 0;
      precounted := map[];
    }

    /** `attempted` is `converted` until it is set. */
    ghost function Value(report: Report): Wallet
      reads this
    {
      var a := if attempted.Some? then attempted.value else converted;
      Wallet(Totals(converted, a, raw, encoded, report), precounted)
    }

    /** `_claim_file_attempt`. */
    method ClaimFileAttempt() returns (ok: bool)
      modifies this`attempted
      ensures var was := old(Value(Report(0, 0, 0))).totals.attempted;
              && ok == (was < MAX_FILE_PARTS)
              && attempted == (if ok then Some(was + 1) else old(attempted))
    {
      var count := if attempted.Some? then attempted.value else converted;
      if count >= MAX_FILE_PARTS {
        return false;
      }
      attempted := Some(count + 1);
      return true;
    }

    /** `_consume_precounted_reference`: None when the part is not one, else
        the reference accepted or why it is rejected. */
    method ConsumePrecountedReference(f: File, ghost report: Report) returns (r: Option<Part>)
      modifies this`raw, this`precounted
      ensures r.Some? <==> old(Precounted(precounted, f))
      ensures r.None? ==> raw == old(raw) && precounted == old(precounted)
      ensures r.Some? ==>
        && (r.value.RoomFile? || r.value.Unavailable?)
        && (Value(Recorded(report, r.value)), r.value) == PrecountedFile(old(Value(report)), f)
    {
      var remaining := if f.fileId in precounted then precounted[f.fileId] else 0;
      if remaining == 0 || f.uri != RoomUrl {
        return None;
      }
      if remaining == 1 {
        precounted := precounted - {f.fileId};
      } else {
        precounted := precounted[f.fileId := remaining - 1];
      }
      if f.reference.Untrusted? || f.reference.size.None? {
        return Some(Unavailable(InvalidContent));
      }
      raw := Minus(raw, f.declaredSize) + f.reference.size.value;
      if raw > MAX_TOTAL_RAW_BYTES {
        return Some(Unavailable(SizeLimit));
      }
      if !f.reference.canonical {
        return Some(Unavailable(InvalidContent));
      }
      return Some(RoomFile(f.reference.size.value, 0));
    }

    /** The content branches of the loop, after the attempt was claimed. */
    method ConvertFile(f: File, ghost report: Report) returns (p: Part)
      requires attempted.Some?
      modifies this`converted, this`raw, this`encoded
      ensures p.RoomFile? || p.Unavailable?
      ensures (Value(Recorded(report, p)).totals, p) == InlineFile(old(Value(report)).totals, f)
    {
      var size;
      if f.encoded > 0 {
        encoded := encoded + f.encoded;
        if encoded > MAX_TOTAL_ENCODED_BYTES {
          return Unavailable(SizeLimit);
        }
        var data := DecodeBase64(f);
        if !data.Got? {
          return Unavailable(BytesReason(data));
        }
        size := data.size;
      } else if f.uri.NoUri? {
        return Unavailable(InvalidContent);
      } else if f.uri.RoomUrl? {
        if f.reference.Untrusted? || f.reference.size.None? {
          return Unavailable(InvalidContent);
        }
        converted := converted + 1;
        raw := raw + f.reference.size.value;
        if raw > MAX_TOTAL_RAW_BYTES {
          return Unavailable(SizeLimit);
        }
        if !f.reference.canonical {
          return Unavailable(InvalidContent);
        }
        return RoomFile(f.reference.size.value, 0);
      } else {
        if !f.fetched.Got? {
          return Unavailable(BytesReason(f.fetched));
        }
        size := f.fetched.size;
      }
      raw := raw + size;
      if raw > MAX_TOTAL_RAW_BYTES {
        return Unavailable(SizeLimit);
      }
      if f.stored != Stored(true) {
        return Unavailable(InvalidContent);
      }
      converted := converted + 1;
      return RoomFile(size, f.encoded);
    }
  }

  /** `record_materialization_success` and `record_materialization_failure`. */
  method Record(card: ReportCard, p: Part)
    requires p.RoomFile? || p.Unavailable?
    modifies card
    ensures card.counts == Recorded(old(card.counts), p)
  {
    if p.RoomFile? {
      card.counts := card.counts.(stored := card.counts.stored + 1);
    } else {
      card.counts := card.counts.(unavailable := card.counts.unavailable + 1);
    }
  }

  /** One file part of the inline loop. */
  method MaterializeInlinePart(file: Option<File>, budget: Budget, card: ReportCard) returns (p: Part)
    requires budget.attempted.Some?
    modifies budget, card
    ensures budget.attempted.Some?
    ensures (budget.Value(card.counts), p) == InlinePart(old(budget.Value(card.counts)), FilePart(file))
  {
    card.counts := card.counts.(attempted := card.counts.attempted + 1);
    if file.Some? {
      var r := budget.ConsumePrecountedReference(file.value, card.counts);
      if r.Some? {
        Record(card, r.value);
        return r.value;
      }
    }
    var ok := budget.ClaimFileAttempt();
    if !ok {
      p := Unavailable(SizeLimit);
    } else if file.None? {
      p := Unavailable(InvalidContent);
    } else {
      p := budget.ConvertFile(file.value, card.counts);
    }
    Record(card, p);
  }

  method MaterializeInlineFileParts(parts: array<Part>, budget: Budget, card: ReportCard) returns (converted: nat)
    modifies parts, budget, card
    ensures (budget.Value(card.counts), parts[..]) == InlineParts(old(budget.Value(card.counts)), old(parts[..]))
    ensures converted == budget.converted
  {
    hide InlinePart;
    ghost var w, before := budget.Value(card.counts), parts[..];
    if budget.attempted.None? {
      budget.attempted := Some(budget.converted);
    }
    var slot := 0;
    while slot < parts.Length
      invariant slot <= parts.Length && budget.attempted.Some?
      invariant parts[slot..] == before[slot..]
      invariant (budget.Value(card.counts), parts[..slot]) == InlineParts(w, before[..slot])
    {
      assert before[..slot + 1][..slot] == before[..slot];
      assert parts[slot] == parts[slot..][0] == before[slot];
      ghost var was := parts[..];
      ghost var w1 := budget.Value(card.counts);
      var q := parts[slot];
      if q.FilePart? {
        q := MaterializeInlinePart(q.file, budget, card);
      } else {
        KeepsOther(w1, q);
      }
      parts[slot] := q;
      assert parts[..slot + 1] == was[..slot] + [q];
      assert parts[slot + 1..] == was[slot..][1..] == before[slot..][1..];
      slot := slot + 1;
    }
    assert before[..slot] == before && parts[..slot] == parts[..];
    converted := budget.converted;
  }

  lemma KeepsOther(w: Wallet, p: Part)
    requires !p.FilePart?
    ensures InlinePart(w, p) == (w, p)
  {}

  // ----- what was accepted

  predicate Accepted(before: Part, after: Part) { before.FilePart? && after.RoomFile? }

  function AcceptedCount(before: seq<Part>, after: seq<Part>): nat
    requires |before| == |after|
  {
    if before == [] then 0
    else
      var n := |before| - 1;
      AcceptedCount(before[..n], after[..n]) + if Accepted(before[n], after[n]) then 1 else 0
  }

  function AcceptedRaw(before: seq<Part>, after: seq<Part>): nat
    requires |before| == |after|
  {
    if before == [] then 0
    else
      var n := |before| - 1;
      AcceptedRaw(before[..n], after[..n]) + if Accepted(before[n], after[n]) then after[n].raw else 0
  }

  function AcceptedEncoded(before: seq<Part>, after: seq<Part>): nat
    requires |before| == |after|
  {
    if before == [] then 0
    else
      var n := |before| - 1;
      AcceptedEncoded(before[..n], after[..n]) + if Accepted(before[n], after[n]) then after[n].encoded else 0
  }

  function FileCount(parts: seq<Part>): nat {
    if parts == [] then 0
    else FileCount(parts[..|parts| - 1]) + if parts[|parts| - 1].FilePart? then 1 else 0
  }

  /** Length and other parts kept; a file part becomes a reference or a
      `file_unavailable` part. */
  ghost predicate Shaped(before: seq<Part>, after: seq<Part>) {
    && |after| == |before|
    && forall i :: 0 <= i < |before| ==>
         if before[i].FilePart? then after[i].RoomFile? || after[i].Unavailable? else after[i] == before[i]
  }

  /** One recorded success or failure per recorded attempt, and as many
      successes as accepted parts. */
  ghost predicate Reported(r: Report, r': Report, before: seq<Part>, after: seq<Part>)
    requires |before| == |after|
  {
    && r'.attempted == r.attempted + FileCount(before)
    && r'.stored == r.stored + AcceptedCount(before, after)
    && r'.stored + r'.unavailable == r.stored + r.unavailable + FileCount(before)
  }

  /** What a file part does to the totals once its attempt is counted. */
  predicate Counted(t: Totals, t': Totals, q: Part) {
    && (q.RoomFile? || q.Unavailable?) && t'.attempted == t.attempted
    && t'.report == (if q.RoomFile? then t.report.(stored := t.report.stored + 1)
                     else t.report.(unavailable := t.report.unavailable + 1))
    && t'.converted == t.converted + (if q.RoomFile? then 1 else 0)
    && t.raw <= t'.raw && t.encoded <= t'.encoded
    && (q.RoomFile? ==>
          && t'.raw == t.raw + q.raw <= MAX_TOTAL_RAW_BYTES
          && t'.encoded == t.encoded + q.encoded && (q.encoded > 0 ==> t'.encoded <= MAX_TOTAL_ENCODED_BYTES))
  }

  lemma ArtifactFileCounted(t: Totals, f: File)
    ensures Counted(t, ArtifactFile(t, f).0, ArtifactFile(t, f).1)
  {}

  /** What one round of the artifact loop does to the totals. */
  lemma ArtifactStep(t: Totals, p: Part)
    ensures var (t', q) := ArtifactPart(t, p);
            && Shaped([p], [q]) && Reported(t.report, t'.report, [p], [q])
            && t.attempted <= t'.attempted && t.raw <= t'.raw && t.encoded <= t'.encoded
            && (t'.attempted == t.attempted || t'.attempted <= MAX_FILE_PARTS)
            && t'.converted == t.converted + (if Accepted(p, q) then 1 else 0)
            && (Accepted(p, q) ==>
                  && t'.raw == t.raw + q.raw <= MAX_TOTAL_RAW_BYTES
                  && t'.encoded == t.encoded + q.encoded && (q.encoded > 0 ==> t'.encoded <= MAX_TOTAL_ENCODED_BYTES))
  {
    var (t', q) := ArtifactPart(t, p);
    CountOne(p, q);
    hide ArtifactFile, FileCount, AcceptedCount;
    if p.FilePart? && p.file.Some? {
      var t1 := Attempt(t);
      ArtifactFileCounted(t1.(attempted := t1.attempted + 1), p.file.value);
    }
    assert [p][0] == p && [q][0] == q;
  }

  lemma CountOne(p: Part, q: Part)
    ensures FileCount([p]) == if p.FilePart? then 1 else 0
    ensures AcceptedCount([p], [q]) == if Accepted(p, q) then 1 else 0
  {
    assert [p][..0] == [] && [q][..0] == [];
  }

  lemma ShapedAppend(before: seq<Part>, after: seq<Part>, r: Report, r1: Report, r2: Report)
    requires |before| == |after| > 0
    requires var n := |before| - 1;
             && Shaped(before[..n], after[..n]) && Reported(r, r1, before[..n], after[..n])
             && Shaped([before[n]], [after[n]]) && Reported(r1, r2, [before[n]], [after[n]])
    ensures Shaped(before, after) && Reported(r, r2, before, after)
  {
    var n := |before| - 1;
    CountOne(before[n], after[n]);
    forall i | 0 <= i < |before|
      ensures if before[i].FilePart? then after[i].RoomFile? || after[i].Unavailable? else after[i] == before[i]
    {
      if i < n {
        assert before[..n][i] == before[i] && after[..n][i] == after[i];
      } else {
        assert [before[n]][0] == before[i] && [after[n]][0] == after[i];
      }
    }
  }

  /** `materialize_artifacts`: the budgets hold, the result counts the accepted
      parts, and the report balances. */
  lemma {:induction false} ArtifactsWithinBudget(t: Totals, parts: seq<Part>)
    ensures var (t', after) := ArtifactParts(t, parts);
            && Shaped(parts, after) && Reported(t.report, t'.report, parts, after)
            && t'.converted == t.converted + AcceptedCount(parts, after)
            && t.attempted <= t'.attempted <= Max(t.attempted, MAX_FILE_PARTS)
            && t.raw + AcceptedRaw(parts, after) <= t'.raw
            && t.encoded + AcceptedEncoded(parts, after) <= t'.encoded
            && t.raw + AcceptedRaw(parts, after) <= Max(t.raw, MAX_TOTAL_RAW_BYTES)
            && t.encoded + AcceptedEncoded(parts, after) <= Max(t.encoded, MAX_TOTAL_ENCODED_BYTES)
  {
    hide ArtifactPart, Shaped, Reported;
    if parts == [] {
      assert Shaped(parts, []) && Reported(t.report, t.report, parts, []) by { NothingReported(t.report); }
    } else {
      var n := |parts| - 1;
      ArtifactsWithinBudget(t, parts[..n]);
      var (t1, done) := ArtifactParts(t, parts[..n]);
      var (t2, q) := ArtifactPart(t1, parts[n]);
      ArtifactStep(t1, parts[n]);
      var after := done + [q];
      assert after[..n] == done;
      ShapedAppend(parts, after, t.report, t1.report, t2.report);
    }
  }

  lemma NothingReported(r: Report)
    ensures Shaped([], []) && Reported(r, r, [], [])
  {}

  function Max(a: nat, b: nat): nat { if a <= b then b else a }

  /** Once the raw total has overflowed, every later file part is rejected. */
  lemma {:induction false} NothingAfterOverflow(t: Totals, parts: seq<Part>, k: nat, i: nat)
    requires k <= i < |parts|
    requires ArtifactParts(t, parts[..k]).0.raw > MAX_TOTAL_RAW_BYTES
    ensures parts[i].FilePart? ==> ArtifactParts(t, parts).1[i].Unavailable?
  {
    hide ArtifactPart;
    var n := |parts| - 1;
    if i < n {
      assert parts[..n][..k] == parts[..k];
      NothingAfterOverflow(t, parts[..n], k, i);
    } else {
      RawGrows(t, parts[..n], k);
      assert parts[..n][..k] == parts[..k];
      var (t1, done) := ArtifactParts(t, parts[..n]);
      ArtifactStep(t1, parts[n]);
      assert Shaped([parts[n]], [ArtifactPart(t1, parts[n]).1]);
      assert [parts[n]][0] == parts[n];
    }
  }

  lemma {:induction false} RawGrows(t: Totals, parts: seq<Part>, k: nat)
    requires k <= |parts|
    ensures ArtifactParts(t, parts[..k]).0.raw <= ArtifactParts(t, parts).0.raw
  {
    hide ArtifactPart;
    if k < |parts| {
      var n := |parts| - 1;
      RawGrows(t, parts[..n], k);
      assert parts[..n][..k] == parts[..k];
      ArtifactStep(ArtifactParts(t, parts[..n]).0, parts[n]);
    } else {
      assert parts[..k] == parts;
    }
  }

  // ----- several artifacts: one budget across all of them

  function Flat(lists: seq<seq<Part>>): seq<Part> {
    if lists == [] then [] else Flat(lists[..|lists| - 1]) + lists[|lists| - 1]
  }

  lemma {:induction false} ArtifactPartsAppend(t: Totals, a: seq<Part>, b: seq<Part>)
    ensures var (t1, done) := ArtifactParts(t, a);
            var (t2, rest) := ArtifactParts(t1, b);
            ArtifactParts(t, a + b) == (t2, done + rest)
  {
    hide ArtifactPart;
    if b == [] {
      assert a + b == a;
      assert ArtifactParts(t, a).1 + [] == ArtifactParts(t, a).1;
    } else {
      var n := |b| - 1;
      ArtifactPartsAppend(t, a, b[..n]);
      assert (a + b)[..|a| + n] == a + b[..n];
      var (t1, done) := ArtifactParts(t, a);
      var (t2, rest) := ArtifactParts(t1, b[..n]);
      var (t3, q) := ArtifactPart(t2, b[n]);
      assert done + (rest + [q]) == (done + rest) + [q];
    }
  }

  /** Walking artifact by artifact is walking the concatenation of their parts:
      the budgets are shared, not per artifact. */
  lemma {:induction false} ArtifactsShareOneBudget(t: Totals, lists: seq<seq<Part>>)
    ensures var (t', after) := AllParts(t, lists);
            ArtifactParts(t, Flat(lists)) == (t', Flat(after))
  {
    if lists != [] {
      var n := |lists| - 1;
      ArtifactsShareOneBudget(t, lists[..n]);
      var (t1, done) := AllParts(t, lists[..n]);
      var (t2, parts) := ArtifactParts(t1, lists[n]);
      ArtifactPartsAppend(t, Flat(lists[..n]), lists[n]);
      assert (done + [parts])[..n] == done;
    }
  }

  /** The result of `materialize_artifacts`, over all artifacts of one call. */
  lemma MaterializeArtifactsBudget(convertedSoFar: nat, report: Report, lists: seq<seq<Part>>)
    ensures var t := Totals(convertedSoFar, convertedSoFar, 0, 0, report);
            var (t', lists') := AllParts(t, lists);
            var before, after := Flat(lists), Flat(lists');
            && |before| == |after|
            && t'.converted == convertedSoFar + AcceptedCount(before, after)
            && AcceptedRaw(before, after) <= MAX_TOTAL_RAW_BYTES
            && AcceptedEncoded(before, after) <= MAX_TOTAL_ENCODED_BYTES
            && t'.attempted <= Max(convertedSoFar, MAX_FILE_PARTS)
            && AcceptedCount(before, after) <= Minus(MAX_FILE_PARTS, convertedSoFar)
            && Reported(report, t'.report, before, after)
  {
    hide ArtifactParts, AllParts, Reported;
    var t := Totals(convertedSoFar, convertedSoFar, 0, 0, report);
    ArtifactsShareOneBudget(t, lists);
    ArtifactsWithinBudget(t, Flat(lists));
    AcceptedAreAttempts(t, Flat(lists));
  }

  /** Each accepted part used up one attempt. */
  lemma {:induction false} AcceptedAreAttempts(t: Totals, parts: seq<Part>)
    ensures var (t', after) := ArtifactParts(t, parts);
            t.attempted + AcceptedCount(parts, after) <= t'.attempted
    ensures t.attempted >= MAX_FILE_PARTS ==> AcceptedCount(parts, ArtifactParts(t, parts).1) == 0
  {
    if parts != [] {
      var n := |parts| - 1;
      AcceptedAreAttempts(t, parts[..n]);
      ArtifactsWithinBudget(t, parts[..n]);
      var (t1, done) := ArtifactParts(t, parts[..n]);
      assert ArtifactParts(t, parts).1[..n] == done;
      var (t2, q) := ArtifactPart(t1, parts[n]);
      assert t2.attempted >= t1.attempted + if Accepted(parts[n], q) then 1 else 0;
    }
  }

  // ----- the two loops compared

  ghost predicate NonePrecounted(pre: map<string, nat>, parts: seq<Part>) {
    forall i :: 0 <= i < |parts| && parts[i].FilePart? && parts[i].file.Some? ==> !Precounted(pre, parts[i].file.value)
  }

  /** Equal up to the conversion count. */
  predicate SameBudget(t: Totals, u: Totals) {
    t.(converted := 0) == u.(converted := 0)
  }

  /** A room reference whose record was confirmed but which is then rejected:
      the inline loop has counted it already. */
  predicate Overcounted(before: Part, after: Part) {
    && before.FilePart? && before.file.Some? && after.Unavailable?
    && before.file.value.encoded == 0 && before.file.value.uri.RoomUrl?
    && before.file.value.reference.Trusted? && before.file.value.reference.size.Some?
  }

  /** Overcounted parts among those that still had an attempt left. */
  function Overcount(t: Totals, parts: seq<Part>): nat {
    if parts == [] then 0
    else
      var n := |parts| - 1;
      var t1 := ArtifactParts(t, parts[..n]).0;
      Overcount(t, parts[..n])
      + if t1.attempted < MAX_FILE_PARTS && Overcounted(parts[n], ArtifactPart(t1, parts[n]).1) then 1 else 0
  }

  lemma StepsAgree(t: Totals, w: Wallet, p: Part)
    requires SameBudget(t, w.totals) && NonePrecounted(w.precounted, [p])
    ensures var (t', q) := ArtifactPart(t, p);
            var (w', q') := InlinePart(w, p);
            && q == q' && SameBudget(t', w'.totals) && w'.precounted == w.precounted
            && w'.totals.converted == w.totals.converted
                 + (if Accepted(p, q) then 1 else 0)
                 + (if t.attempted < MAX_FILE_PARTS && Overcounted(p, q) then 1 else 0)
  {
    assert [p][0] == p;
  }

  /** Without pre-counted references and from equal budgets the two loops turn
      the same parts into the same references and the same rejections, keep the
      same budgets and write the same report. Only the counts they return may
      differ, by exactly the confirmed references rejected after being counted. */
  lemma {:induction false} LoopsAgree(t: Totals, w: Wallet, parts: seq<Part>)
    requires SameBudget(t, w.totals) && NonePrecounted(w.precounted, parts)
    ensures var (t', after) := ArtifactParts(t, parts);
            var (w', after') := InlineParts(w, parts);
            && after == after' && SameBudget(t', w'.totals) && w'.precounted == w.precounted
            && w'.totals.converted == w.totals.converted + AcceptedCount(parts, after) + Overcount(t, parts)
  {
    hide ArtifactPart, InlinePart, SameBudget, Overcounted;
    if parts != [] {
      var n := |parts| - 1;
      LoopsAgree(t, w, parts[..n]);
      var (t1, done) := ArtifactParts(t, parts[..n]);
      var (w1, _) := InlineParts(w, parts[..n]);
      assert NonePrecounted(w1.precounted, [parts[n]]);
      StepsAgree(t1, w1, parts[n]);
      assert ArtifactParts(t, parts).1[..n] == done;
    }
  }

  /** The counts agree exactly when no confirmed reference was rejected. */
  lemma CountsAgree(t: Totals, parts: seq<Part>)
    ensures var inline, plain := InlineParts(Wallet(t, map[]), parts).0.totals, ArtifactParts(t, parts).0;
            inline.converted >= plain.converted && (inline.converted == plain.converted <==> Overcount(t, parts) == 0)
  {
    LoopsAgree(t, Wallet(t, map[]), parts);
    ArtifactsWithinBudget(t, parts);
  }

  /** One room reference of 100 MiB and a byte: rejected by both loops, counted
      as converted by the inline one. */
  lemma OvercountHappens()
    ensures var f := File(0, Broken, RoomUrl, "f", 0, Trusted(Some(MAX_TOTAL_RAW_BYTES + 1), true), Broken, Permanent);
            var t := Totals(0, 0, 0, 0, Report(0, 0, 0));
            var (w, after) := InlineParts(Wallet(t, map[]), [FilePart(Some(f))]);
            && after == [Unavailable(SizeLimit)] && w.totals.converted == 1
            && ArtifactParts(t, [FilePart(Some(f))]).0.converted == 0
  {
    var f := File(0, Broken, RoomUrl, "f", 0, Trusted(Some(MAX_TOTAL_RAW_BYTES + 1), true), Broken, Permanent);
    var t := Totals(0, 0, 0, 0, Report(0, 0, 0));
    var parts := [FilePart(Some(f))];
    assert parts[..0] == [];
    assert InlineParts(Wallet(t, map[]), parts[..0]) == (Wallet(t, map[]), []);
    assert ArtifactParts(t, parts[..0]) == (t, []);
  }

  // ----- pre-counted references

  function SpentOn(before: seq<Part>, w: Wallet, id: string): nat {
    if before == [] then 0
    else
      var n := |before| - 1;
      var w1 := InlineParts(w, before[..n]).0;
      var p := before[n];
      SpentOn(before[..n], w, id)
      + if p.FilePart? && p.file.Some? && p.file.value.fileId == id && Precounted(w1.precounted, p.file.value) then 1
        else 0
  }

  function Remaining(pre: map<string, nat>, id: string): nat { if id in pre then pre[id] else 0 }

  lemma InlineStep(w: Wallet, p: Part, id: string)
    ensures var (w', q) := InlinePart(w, p);
            && Shaped([p], [q]) && Reported(w.totals.report, w'.totals.report, [p], [q])
            && w.totals.attempted <= w'.totals.attempted
            && (w'.totals.attempted == w.totals.attempted || w'.totals.attempted <= MAX_FILE_PARTS)
            && Remaining(w.precounted, id) == Remaining(w'.precounted, id)
                 + (if p.FilePart? && p.file.Some? && p.file.value.fileId == id
                       && Precounted(w.precounted, p.file.value)
                    then 1 else 0)
  {
    CountOne(p, InlinePart(w, p).1);
    hide FileCount, AcceptedCount;
    assert [p][0] == p && [InlinePart(w, p).1][0] == InlinePart(w, p).1;
  }

  /** The inline loop with any pre-counted references: the list keeps its shape,
      the report balances, attempts stay bounded, and a file id is let through
      without an attempt at most as often as it was counted. */
  lemma {:induction false} InlineBalances(w: Wallet, parts: seq<Part>, id: string)
    ensures var (w', after) := InlineParts(w, parts);
            && Shaped(parts, after) && Reported(w.totals.report, w'.totals.report, parts, after)
            && w.totals.attempted <= w'.totals.attempted <= Max(w.totals.attempted, MAX_FILE_PARTS)
            && Remaining(w.precounted, id) == Remaining(w'.precounted, id) + SpentOn(parts, w, id)
  {
    hide InlinePart, Shaped, Reported, Precounted;
    if parts == [] {
      NothingReported(w.totals.report);
    } else {
      var n := |parts| - 1;
      InlineBalances(w, parts[..n], id);
      var (w1, done) := InlineParts(w, parts[..n]);
      var (w2, q) := InlinePart(w1, parts[n]);
      InlineStep(w1, parts[n], id);
      var after := done + [q];
      assert after[..n] == done;
      ShapedAppend(parts, after, w.totals.report, w1.totals.report, w2.totals.report);
    }
  }
}
