/** Exactly which file parts of a list become room files, told from the list
    alone: the size and the record of each file and the sums before it. */
module ArtifactExact {
  import opened ArtifactBudget
  import opened Wrappers

  // ----- what a file is worth on its own

  const MAX_FILE_ENCODED: nat := 69_905_068

  /** The bytes that can be had, each within the limit of one file. */
  function Size(f: File): Option<nat> {
    if f.encoded > 0 then
      if f.encoded <= MAX_FILE_ENCODED && f.base64.Got? && f.base64.size <= 52_428_800 then Some(f.base64.size)
      else None
    else match f.uri
      case NoUri => None
      case RoomUrl => if f.reference.Trusted? then f.reference.size else None
      case Remote => if f.fetched.Got? then Some(f.fetched.size) else None
  }

  /** The record the file ends up with is a canonical one. */
  predicate Canonical(f: File) {
    if f.encoded == 0 && f.uri.RoomUrl? then f.reference.Trusted? && f.reference.canonical
    else f.stored.Stored? && f.stored.canonical
  }

  predicate Usable(f: File) { Size(f).Some? && Canonical(f) }

  /** Its own bytes are over the limit of one file. */
  predicate TooBig(f: File) {
    if f.encoded > 0 then
      || f.encoded > MAX_FILE_ENCODED || f.base64.TooLarge? || (f.base64.Got? && f.base64.size > 52_428_800)
    else f.uri.Remote? && f.fetched.TooLarge?
  }

  // ----- sums over a list

  function EncodedSum(parts: seq<Part>): nat {
    if parts == [] then 0
    else
      var p := parts[|parts| - 1];
      EncodedSum(parts[..|parts| - 1]) + if p.FilePart? && p.file.Some? then p.file.value.encoded else 0
  }

  /** The bytes had so far: inline text that came after the encoded limit was
      passed is not decoded. */
  function RawSum(encoded: nat, parts: seq<Part>): nat {
    if parts == [] then 0
    else
      var p := parts[|parts| - 1];
      RawSum(encoded, parts[..|parts| - 1])
      + if p.FilePart? && p.file.Some? && Size(p.file.value).Some? && InEncoded(encoded, parts)
        then Size(p.file.value).value else 0
  }

  /** The last part's inline text, if any, is within the encoded limit. */
  predicate InEncoded(encoded: nat, parts: seq<Part>)
    requires parts != [] && parts[|parts| - 1].FilePart? && parts[|parts| - 1].file.Some?
  {
    parts[|parts| - 1].file.value.encoded > 0 ==> encoded + EncodedSum(parts) <= 139_810_136
  }

  // ----- the totals before a part

  lemma ConstantsAgree()
    ensures MAX_FILE_ENCODED == 4 * ((MAX_FILE_RAW_BYTES + 2) / 3) && MAX_FILE_RAW_BYTES == 52_428_800
    ensures MAX_TOTAL_RAW_BYTES == 104_857_600
  {
  }

  /** As long as attempts are left, what was counted is the sums; afterwards no
      attempt is left. */
  lemma {:induction false} TotalsAre(t: Totals, parts: seq<Part>)
    ensures var t' := ArtifactParts(t, parts).0;
      if t.attempted + FileCount(parts) <= 20 then
        && t'.attempted == t.attempted + FileCount(parts) && t'.encoded == t.encoded + EncodedSum(parts)
        && t'.raw == t.raw + RawSum(t.encoded, parts)
      else t'.attempted >= 20
  {
    if parts != [] {
      var n := |parts| - 1;
      TotalsAre(t, parts[..n]);
      PartTotals(ArtifactParts(t, parts[..n]).0, parts[n]);
      hide ArtifactPart;
    }
  }

  /** One part's effect on the totals. */
  lemma PartTotals(t: Totals, p: Part)
    ensures var t' := ArtifactPart(t, p).0;
      && (!p.FilePart? || t.attempted >= 20 ==>
            t'.attempted == t.attempted && t'.encoded == t.encoded && t'.raw == t.raw)
      && (p.FilePart? && t.attempted < 20 ==>
            && t'.attempted == t.attempted + 1
            && t'.encoded == t.encoded + (if p.file.Some? then p.file.value.encoded else 0)
            && t'.raw == t.raw
                 + if p.file.Some? && Size(p.file.value).Some?
                      && (p.file.value.encoded > 0 ==> t'.encoded <= 139_810_136)
                   then Size(p.file.value).value else 0)
  {
    ConstantsAgree();
  }

  lemma {:induction false} ResultAt(t: Totals, parts: seq<Part>, i: nat)
    requires i < |parts|
    ensures ArtifactParts(t, parts).1[i] == ArtifactPart(ArtifactParts(t, parts[..i]).0, parts[i]).1
  {
    hide ArtifactPart;
    var n := |parts| - 1;
    if i < n {
      ResultAt(t, parts[..n], i);
      assert parts[..n][..i] == parts[..i];
    }
  }

  // ----- the verdict

  predicate Tried(t: Totals, parts: seq<Part>, i: nat)
    requires i < |parts|
  {
    t.attempted + FileCount(parts[..i]) < 20
  }

  /** Within both total limits, its own size included. */
  predicate Fits(t: Totals, parts: seq<Part>, i: nat)
    requires i < |parts| && parts[i].FilePart? && parts[i].file.Some?
  {
    && (parts[i].file.value.encoded > 0 ==> t.encoded + EncodedSum(parts[..i + 1]) <= 139_810_136)
    && t.raw + RawSum(t.encoded, parts[..i + 1]) <= 104_857_600
  }

  predicate Accepts(t: Totals, parts: seq<Part>, i: nat)
    requires i < |parts|
  {
    && parts[i].FilePart? && parts[i].file.Some?
    && Tried(t, parts, i) && Usable(parts[i].file.value) && Fits(t, parts, i)
  }

  /** A rejection is for size when no attempt is left, when the file is over the
      limit of one file, or when a total it would add to is over its limit. */
  predicate ForSize(t: Totals, parts: seq<Part>, i: nat)
    requires i < |parts| && parts[i].FilePart?
  {
    || !Tried(t, parts, i)
    || (parts[i].file.Some?
        && (TooBig(parts[i].file.value)
            || (parts[i].file.value.encoded > 0 && t.encoded + EncodedSum(parts[..i + 1]) > 139_810_136)
            || (Size(parts[i].file.value).Some? && t.raw + RawSum(t.encoded, parts[..i + 1]) > 104_857_600)))
  }

  predicate Verdict(t: Totals, parts: seq<Part>, i: nat, q: Part)
    requires i < |parts|
  {
    if !parts[i].FilePart? then q == parts[i]
    else if Accepts(t, parts, i) then
      q == RoomFile(Size(parts[i].file.value).value, parts[i].file.value.encoded)
    else if ForSize(t, parts, i) then q == Unavailable(SizeLimit)
    else q == Unavailable(InvalidContent)
  }

  /** Every part of every list, from any totals: accepted with its own bytes, or
      rejected and for which reason. */
  lemma MaterializeExact(t: Totals, parts: seq<Part>, i: nat)
    requires i < |parts|
    ensures Verdict(t, parts, i, ArtifactParts(t, parts).1[i])
  {
    ResultAt(t, parts, i);
    TotalsAre(t, parts[..i]);
    TotalsAre(t, parts[..i + 1]);
    assert parts[..i + 1][..i] == parts[..i];
    var t1 := ArtifactParts(t, parts[..i]).0;
    assert ArtifactParts(t, parts[..i + 1]).0 == ArtifactPart(t1, parts[i]).0;
    PartTotals(t1, parts[i]);
    if parts[i].FilePart? {
      PartVerdict(t1, parts[i]);
    }
    hide ArtifactPart, ArtifactParts;
  }

  /** The same for one part, from the totals it meets. */
  lemma PartVerdict(t: Totals, p: Part)
    requires p.FilePart?
    ensures var (t', q) := ArtifactPart(t, p);
      if t.attempted < 20 && p.file.Some? && Usable(p.file.value)
         && (p.file.value.encoded > 0 ==> t'.encoded <= 139_810_136) && t'.raw <= 104_857_600
      then q == RoomFile(Size(p.file.value).value, p.file.value.encoded)
      else if t.attempted >= 20
           || (p.file.Some?
               && (TooBig(p.file.value) || (p.file.value.encoded > 0 && t'.encoded > 139_810_136)
                   || (Size(p.file.value).Some? && t'.raw > 104_857_600)))
      then q == Unavailable(SizeLimit)
      else q == Unavailable(InvalidContent)
  {
    ConstantsAgree();
  }

  /** The inline loop gives the same verdicts where nothing was counted before. */
  lemma InlineExact(w: Wallet, parts: seq<Part>, i: nat)
    requires NonePrecounted(w.precounted, parts) && i < |parts|
    ensures Verdict(w.totals, parts, i, InlineParts(w, parts).1[i])
  {
    LoopsAgree(w.totals, w, parts);
    MaterializeExact(w.totals, parts, i);
  }

  /** And a whole call over several artifacts, on the concatenation of their parts. */
  lemma WholeCallExact(convertedSoFar: nat, report: Report, lists: seq<seq<Part>>, i: nat)
    requires i < |Flat(lists)|
    ensures var t := Totals(convertedSoFar, convertedSoFar, 0, 0, report);
      var after := Flat(AllParts(t, lists).1);
      |after| == |Flat(lists)| && Verdict(t, Flat(lists), i, after[i])
  {
    hide AllParts, ArtifactParts, Verdict;
    var t := Totals(convertedSoFar, convertedSoFar, 0, 0, report);
    ArtifactsShareOneBudget(t, lists);
    MaterializeExact(t, Flat(lists), i);
  }

  // ----- what fits is converted

  /** The bytes of all file parts, whether they can be stored or not. */
  function BytesOf(p: Part): nat {
    if p.FilePart? && p.file.Some? && Size(p.file.value).Some? then Size(p.file.value).value else 0
  }

  function AllBytes(parts: seq<Part>): nat {
    if parts == [] then 0 else AllBytes(parts[..|parts| - 1]) + BytesOf(parts[|parts| - 1])
  }

  ghost predicate AllUsable(parts: seq<Part>) {
    forall i :: 0 <= i < |parts| && parts[i].FilePart? ==> parts[i].file.Some? && Usable(parts[i].file.value)
  }

  predicate FitsTotals(t: Totals, parts: seq<Part>) {
    && t.attempted + FileCount(parts) <= 20
    && t.raw + AllBytes(parts) <= 104_857_600 && t.encoded + EncodedSum(parts) <= 139_810_136
  }

  /** Every file part has become a reference to its own bytes. */
  ghost predicate AllConverted(parts: seq<Part>, after: seq<Part>) {
    && |after| == |parts|
    && forall i :: 0 <= i < |parts| ==>
         if parts[i].FilePart? && parts[i].file.Some?
         then after[i] == RoomFile(BytesOf(parts[i]), parts[i].file.value.encoded)
         else after[i] == parts[i]
  }

  /** A reference that was counted before is one and has no inline text. */
  ghost predicate PlainReferences(pre: map<string, nat>, parts: seq<Part>) {
    forall i :: 0 <= i < |parts| && parts[i].FilePart? && parts[i].file.Some?
                && parts[i].file.value.uri.RoomUrl? && parts[i].file.value.fileId in pre ==>
      parts[i].file.value.encoded == 0
  }

  lemma FitsConverts(t: Totals, p: Part)
    requires p.FilePart? ==> p.file.Some? && Usable(p.file.value)
    requires p.FilePart? ==>
      && t.attempted < 20 && t.raw + BytesOf(p) <= 104_857_600
      && t.encoded + p.file.value.encoded <= 139_810_136
    ensures var (t', q) := ArtifactPart(t, p);
      && q == (if p.FilePart? then RoomFile(BytesOf(p), p.file.value.encoded) else p)
      && t'.converted == t.converted + (if p.FilePart? then 1 else 0)
      && t'.attempted == t.attempted + (if p.FilePart? then 1 else 0)
      && t'.raw == t.raw + BytesOf(p)
      && t'.encoded == t.encoded + (if p.FilePart? then p.file.value.encoded else 0)
  {
    ConstantsAgree();
  }

  /** At most twenty usable files whose sums fit are all converted, each to its
      own bytes, and all counted. */
  lemma {:induction false} AllThatFitsIsConverted(t: Totals, parts: seq<Part>)
    requires AllUsable(parts) && FitsTotals(t, parts)
    ensures var (t', after) := ArtifactParts(t, parts);
      && AllConverted(parts, after) && t'.converted == t.converted + FileCount(parts)
      && t'.attempted == t.attempted + FileCount(parts) && t'.raw == t.raw + AllBytes(parts)
      && t'.encoded == t.encoded + EncodedSum(parts)
  {
    hide ArtifactPart, Usable, BytesOf;
    if parts != [] {
      var n := |parts| - 1;
      AllThatFitsIsConverted(t, parts[..n]);
      FitsConverts(ArtifactParts(t, parts[..n]).0, parts[n]);
    }
  }

  lemma InlineConverts(w: Wallet, p: Part)
    requires p.FilePart? ==> p.file.Some? && Usable(p.file.value)
    requires p.FilePart? && Precounted(w.precounted, p.file.value) ==> p.file.value.encoded == 0
    requires p.FilePart? ==>
      && w.totals.attempted < 20 && w.totals.raw + BytesOf(p) <= 104_857_600
      && w.totals.encoded + p.file.value.encoded <= 139_810_136
    ensures var (w', q) := InlinePart(w, p);
      && q == (if p.FilePart? then RoomFile(BytesOf(p), p.file.value.encoded) else p)
      && w'.totals.attempted <= w.totals.attempted + (if p.FilePart? then 1 else 0)
      && w'.totals.raw <= w.totals.raw + BytesOf(p)
      && w'.totals.encoded <= w.totals.encoded + (if p.FilePart? then p.file.value.encoded else 0)
      && w'.totals.report.stored == w.totals.report.stored + (if p.FilePart? then 1 else 0)
      && w'.totals.report.unavailable == w.totals.report.unavailable
      && w'.precounted.Keys <= w.precounted.Keys
  {
    ConstantsAgree();
  }

  /** The inline loop likewise, with any references counted before among them. */
  lemma {:induction false} AllThatFitsIsInlined(w: Wallet, parts: seq<Part>)
    requires AllUsable(parts) && FitsTotals(w.totals, parts) && PlainReferences(w.precounted, parts)
    ensures var (w', after) := InlineParts(w, parts);
      && AllConverted(parts, after) && w'.totals.attempted <= w.totals.attempted + FileCount(parts)
      && w'.totals.raw <= w.totals.raw + AllBytes(parts) && w'.totals.encoded <= w.totals.encoded + EncodedSum(parts)
      && w'.totals.report.stored == w.totals.report.stored + FileCount(parts)
      && w'.totals.report.unavailable == w.totals.report.unavailable
      && w'.precounted.Keys <= w.precounted.Keys
  {
    hide InlinePart, Usable, BytesOf;
    if parts != [] {
      var n := |parts| - 1;
      AllThatFitsIsInlined(w, parts[..n]);
      InlineConverts(InlineParts(w, parts[..n]).0, parts[n]);
    }
  }

  // ----- what is unusable is not

  /** Nothing is accepted whose bytes cannot be had or whose record is not
      canonical, by either loop, in any list; what was counted before must still
      be confirmed by its record. */
  lemma UnusableNeverConverted(t: Totals, w: Wallet, parts: seq<Part>, i: nat)
    requires i < |parts| && parts[i].FilePart?
    requires parts[i].file.None? || !Usable(parts[i].file.value)
    ensures ArtifactParts(t, parts).1[i].Unavailable?
    ensures InlineParts(w, parts).1[i].Unavailable?
         || (parts[i].file.Some? && parts[i].file.value.fileId in w.precounted && parts[i].file.value.uri.RoomUrl?
             && parts[i].file.value.reference.Trusted? && parts[i].file.value.reference.canonical
             && parts[i].file.value.encoded > 0)
  {
    MaterializeExact(t, parts, i);
    InlineResultAt(w, parts, i);
    var w1 := InlineParts(w, parts[..i]).0;
    hide ArtifactParts;
    UnusableInline(w1, parts[i]);
  }

  lemma UnusableInline(w: Wallet, p: Part)
    requires p.FilePart? && (p.file.None? || !Usable(p.file.value))
    ensures InlinePart(w, p).1.Unavailable?
         || (p.file.Some? && Precounted(w.precounted, p.file.value) && p.file.value.encoded > 0
             && p.file.value.reference.Trusted? && p.file.value.reference.canonical)
  {
    ConstantsAgree();
  }

  lemma {:induction false} InlineResultAt(w: Wallet, parts: seq<Part>, i: nat)
    requires i < |parts|
    ensures InlineParts(w, parts).1[i] == InlinePart(InlineParts(w, parts[..i]).0, parts[i]).1
    ensures InlineParts(w, parts[..i]).0.precounted.Keys <= w.precounted.Keys
  {
    hide InlinePart;
    var n := |parts| - 1;
    CountsOnlyShrink(w, parts[..i]);
    if i < n {
      InlineResultAt(w, parts[..n], i);
      assert parts[..n][..i] == parts[..i];
    }
  }

  lemma {:induction false} CountsOnlyShrink(w: Wallet, parts: seq<Part>)
    ensures InlineParts(w, parts).0.precounted.Keys <= w.precounted.Keys
  {
    if parts != [] {
      CountsOnlyShrink(w, parts[..|parts| - 1]);
      ShrinksOnce(InlineParts(w, parts[..|parts| - 1]).0, parts[|parts| - 1]);
      hide InlinePart;
    }
  }

  lemma ShrinksOnce(w: Wallet, p: Part)
    ensures InlinePart(w, p).0.precounted.Keys <= w.precounted.Keys
  {
  }

  // ----- references counted before

  function DeclaredSum(parts: seq<Part>): nat {
    if parts == [] then 0
    else
      var p := parts[|parts| - 1];
      DeclaredSum(parts[..|parts| - 1]) + if p.FilePart? && p.file.Some? then p.file.value.declaredSize else 0
  }

  /** Different references, each counted before. */
  ghost predicate CountedOnce(pre: map<string, nat>, parts: seq<Part>) {
    && (forall i :: 0 <= i < |parts| && parts[i].FilePart? ==>
          parts[i].file.Some? && Precounted(pre, parts[i].file.value) && parts[i].file.value.encoded == 0)
    && (forall i, j :: 0 <= i < j < |parts| && parts[i].FilePart? && parts[j].FilePart?
                       && parts[i].file.Some? && parts[j].file.Some? ==>
          parts[i].file.value.fileId != parts[j].file.value.fileId)
  }

  ghost predicate Mentions(parts: seq<Part>, id: string) {
    exists i :: 0 <= i < |parts| && parts[i].FilePart? && parts[i].file.Some? && parts[i].file.value.fileId == id
  }

  predicate SameUses(pre: map<string, nat>, pre': map<string, nat>, id: string) {
    (id in pre' <==> id in pre) && (id in pre ==> pre'[id] == pre[id])
  }

  /** One reference confirmed: its declared size is given back, its stored size
      taken, one of its uses spent and no attempt. */
  lemma ConfirmOne(w: Wallet, p: Part)
    requires p.FilePart? && p.file.Some? && Precounted(w.precounted, p.file.value) && p.file.value.encoded == 0
    requires Usable(p.file.value) && w.totals.raw >= p.file.value.declaredSize
    requires w.totals.raw + BytesOf(p) <= 104_857_600 + p.file.value.declaredSize
    ensures var (w', q) := InlinePart(w, p);
      && q == RoomFile(BytesOf(p), 0) && w'.totals.raw == w.totals.raw - p.file.value.declaredSize + BytesOf(p)
      && w'.totals.(raw := 0, report := w.totals.report) == w.totals.(raw := 0)
      && forall id :: id != p.file.value.fileId ==> SameUses(w.precounted, w'.precounted, id)
  {
    ConstantsAgree();
  }

  /** A list of confirmed references exchanges the sizes they were declared with
      for the stored ones, to the byte, and changes no other count. */
  lemma {:induction false} ConfirmedSizesReplaceDeclared(w: Wallet, parts: seq<Part>)
    requires AllUsable(parts) && CountedOnce(w.precounted, parts)
    requires DeclaredSum(parts) <= w.totals.raw && w.totals.raw + AllBytes(parts) <= 104_857_600
    ensures var (w', after) := InlineParts(w, parts);
      && AllConverted(parts, after)
      && w'.totals.raw == w.totals.raw - DeclaredSum(parts) + AllBytes(parts)
      && w'.totals.(raw := 0, report := w.totals.report) == w.totals.(raw := 0)
      && forall id :: !Mentions(parts, id) ==> SameUses(w.precounted, w'.precounted, id)
  {
    hide InlinePart, Usable, BytesOf, Mentions, SameUses;
    if parts == [] {
      forall id ensures SameUses(w.precounted, w.precounted, id) { SameAsItself(w.precounted, id); }
    } else {
      var n := |parts| - 1;
      FirstCounted(w.precounted, parts);
      hide CountedOnce;
      ConfirmedSizesReplaceDeclared(w, parts[..n]);
      var w1 := InlineParts(w, parts[..n]).0;
      if parts[n].FilePart? {
        StillCounted(w.precounted, w1.precounted, parts);
        ConfirmOne(w1, parts[n]);
      } else {
        KeepsOther(w1, parts[n]);
        NoBytes(parts[n]);
      }
      var w2 := InlinePart(w1, parts[n]).0;
      forall id | !Mentions(parts, id) ensures SameUses(w.precounted, w2.precounted, id) {
        SameStill(w, w1, w2, parts, id);
      }
    }
  }

  lemma SameAsItself(pre: map<string, nat>, id: string)
    ensures SameUses(pre, pre, id)
  {
  }

  lemma NoBytes(p: Part)
    ensures !p.FilePart? ==> BytesOf(p) == 0
  {
  }

  lemma FirstCounted(pre: map<string, nat>, parts: seq<Part>)
    requires parts != [] && CountedOnce(pre, parts)
    ensures CountedOnce(pre, parts[..|parts| - 1])
  {
  }

  /** The last reference is not among the earlier ones, so it is still counted. */
  lemma StillCounted(pre: map<string, nat>, pre1: map<string, nat>, parts: seq<Part>)
    requires parts != [] && CountedOnce(pre, parts) && parts[|parts| - 1].FilePart?
    requires forall id :: !Mentions(parts[..|parts| - 1], id) ==> SameUses(pre, pre1, id)
    ensures parts[|parts| - 1].file.Some? && Precounted(pre1, parts[|parts| - 1].file.value)
    ensures parts[|parts| - 1].file.value.encoded == 0
  {
    var id := parts[|parts| - 1].file.value.fileId;
    assert !Mentions(parts[..|parts| - 1], id);
    assert SameUses(pre, pre1, id);
  }

  lemma SameStill(w: Wallet, w1: Wallet, w2: Wallet, parts: seq<Part>, id: string)
    requires parts != [] && !Mentions(parts, id)
    requires forall id :: !Mentions(parts[..|parts| - 1], id) ==> SameUses(w.precounted, w1.precounted, id)
    requires w2 == InlinePart(w1, parts[|parts| - 1]).0
    requires var p := parts[|parts| - 1];
      if p.FilePart? && p.file.Some? then
        forall id :: id != p.file.value.fileId ==> SameUses(w1.precounted, w2.precounted, id)
      else w2 == w1
    ensures SameUses(w.precounted, w2.precounted, id)
  {
    hide InlinePart;
    assert !Mentions(parts[..|parts| - 1], id) by {
      assert forall i :: 0 <= i < |parts| - 1 ==> parts[..|parts| - 1][i] == parts[i];
    }
    assert SameUses(w.precounted, w1.precounted, id);
    var p := parts[|parts| - 1];
    if p.FilePart? && p.file.Some? {
      assert id != p.file.value.fileId;
      assert SameUses(w1.precounted, w2.precounted, id);
    }
  }
}
