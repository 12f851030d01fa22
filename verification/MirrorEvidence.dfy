/** scripts/build_v24_26_external_mirror_evidence.py: append-only receipts grouped into sealed windows. */
module MirrorEvidence {
  import opened Sorting
  import opened TextOrder
  import opened Wrappers

  /** A receipt as `load_receipts` admits it; an absent or empty `receiptHash` is the empty string.
      (The two flags it checks there are constants afterwards.) */
  datatype Receipt = Receipt(
    windowId: string, generationSeq: int, generationHash: string, fencingToken: int,
    sampleId: string, domain: string, inputHash: string, productionHash: string, shadowHash: string, receiptHash: string)

  datatype Identity = Identity(generationSeq: int, generationHash: string, fencingToken: int)

  datatype Sample = Sample(
    sampleId: string, domain: string, inputHash: string, productionHash: string, shadowHash: string, receiptHash: string)

  datatype Window = Window(windowId: string, identity: Identity, samples: seq<Sample>, sampleSetHash: string)

  datatype Evidence = Evidence(windows: seq<Window>, control: map<string, bool>, evidenceHash: string)

  /** SHA-256 of canonical JSON, for the three kinds of value it is taken of. */
  datatype Hashes = Hashes(
    ofSample: Sample -> string,
    ofSamples: seq<Sample> -> string,
    ofEvidence: (seq<Window>, map<string, bool>) -> string)

  datatype Error = DuplicateSample(id: string) | MixedGeneration(windowId: string)
  datatype Result = Ok(evidence: Evidence) | Err(error: Error)

  function IdentityOf(r: Receipt): Identity {
    Identity(r.generationSeq, r.generationHash, r.fencingToken)
  }

  function SampleOf(r: Receipt, h: Hashes): Sample {
    var bare := Sample(r.sampleId, r.domain, r.inputHash, r.productionHash, r.shadowHash, "");
    bare.(receiptHash := if r.receiptHash != "" then r.receiptHash else h.ofSample(bare))
  }

  /** The sort key of a sample inside its window: `(domain, sampleId)`. */
  predicate KeyLess(a: Sample, b: Sample) {
    Less(a.domain, b.domain) || (a.domain == b.domain && Less(a.sampleId, b.sampleId))
  }

  lemma KeyIsOrder()
    ensures StrictOrder(KeyLess)
  {
    hide Less;
    TextIsOrdered();
  }

  lemma KeyIsTotal(a: Sample, b: Sample)
    requires a.sampleId != b.sampleId
    ensures KeyLess(a, b) || KeyLess(b, a)
  {
    LessTotal(a.domain, b.domain);
    LessTotal(a.sampleId, b.sampleId);
  }

  // ------------------------------------------------------------------ what sealing means

  /** No sample id twice, one generation identity per window. */
  ghost predicate Consistent(receipts: seq<Receipt>) {
    forall i, j | 0 <= i < j < |receipts| ::
      && receipts[i].sampleId != receipts[j].sampleId
      && (receipts[i].windowId == receipts[j].windowId ==> IdentityOf(receipts[i]) == IdentityOf(receipts[j]))
  }

  ghost predicate SealedWindow(w: Window, receipts: set<Receipt>, h: Hashes) {
    && (forall r | r in receipts && r.windowId == w.windowId :: w.identity == IdentityOf(r))
    && Ascending(w.samples, KeyLess)
    && Elements(w.samples) == (set r | r in receipts && r.windowId == w.windowId :: SampleOf(r, h))
    && w.sampleSetHash == h.ofSamples(w.samples)
  }

  function WindowIds(windows: seq<Window>): seq<string> {
    seq(|windows|, i requires 0 <= i < |windows| => windows[i].windowId)
  }

  /** The evidence a set of receipts seals to. */
  ghost predicate Sealed(e: Evidence, receipts: set<Receipt>, control: map<string, bool>, h: Hashes) {
    && WindowIds(e.windows) == SortText(set r | r in receipts :: r.windowId)
    && (forall w | w in e.windows :: SealedWindow(w, receipts, h))
    && e.control == control
    && e.evidenceHash == h.ofEvidence(e.windows, control)
  }

  // ------------------------------------------------------------------ the builder

  /** `sorted(rows, key=...)` by insertion, for rows with distinct sample ids. */
  method SortSamples(rows: seq<Sample>) returns (r: seq<Sample>)
    requires forall i, j | 0 <= i < j < |rows| :: rows[i].sampleId != rows[j].sampleId
    ensures Ascending(r, KeyLess) && Elements(r) == Elements(rows)
  {
    hide Less, KeyLess;
    KeyIsOrder();
    r := [];
    for n := 0 to |rows|
      invariant Ascending(r, KeyLess) && Elements(r) == Elements(rows[..n])
    {
      var x := rows[n];
      var k := 0;
      while k < |r| && KeyLess(r[k], x)
        invariant k <= |r| && forall i | 0 <= i < k :: KeyLess(r[i], x)
      {
        k := k + 1;
      }
      if k < |r| {
        assert r[k] in Elements(rows[..n]);
        var i :| 0 <= i < n && rows[i] == r[k];
        KeyIsTotal(r[k], x);
        assert KeyLess(x, r[k]);
      }
      assert Elements(rows[..n + 1]) == Elements(rows[..n]) + {x};
      InsertKeepsOrder(r, k, x);
      r := r[..k] + [x] + r[k..];
    }
    assert rows[..|rows|] == rows;
  }

  lemma InsertKeepsOrder(r: seq<Sample>, k: nat, x: Sample)
    requires Ascending(r, KeyLess) && k <= |r| && StrictOrder(KeyLess)
    requires forall i | 0 <= i < k :: KeyLess(r[i], x)
    requires k < |r| ==> KeyLess(x, r[k])
    ensures Ascending(r[..k] + [x] + r[k..], KeyLess)
    ensures Elements(r[..k] + [x] + r[k..]) == Elements(r) + {x}
  {
    hide KeyLess;
    var s := r[..k] + [x] + r[k..];
    assert forall i | k < i < |r| :: KeyLess(r[k], r[i]);
    assert r == r[..k] + r[k..];
  }

  /** The rows of one window, in the order of the receipts. */
  function Rows(receipts: seq<Receipt>, w: string, h: Hashes): seq<Sample> {
    if receipts == [] then [] else
      var r := receipts[|receipts| - 1];
      Rows(receipts[..|receipts| - 1], w, h) + if r.windowId == w then [SampleOf(r, h)] else []
  }

  lemma {:induction false} RowsAreSamples(receipts: seq<Receipt>, w: string, h: Hashes)
    ensures Elements(Rows(receipts, w, h)) == set r | r in receipts && r.windowId == w :: SampleOf(r, h)
  {
    if receipts != [] {
      var n := |receipts| - 1;
      var r := receipts[n];
      RowsAreSamples(receipts[..n], w, h);
      hide SampleOf;
      assert forall q :: q in receipts <==> q in receipts[..n] || q == r by { assert receipts == receipts[..n] + [r]; }
      assert Elements(Rows(receipts, w, h)) ==
               Elements(Rows(receipts[..n], w, h)) + if r.windowId == w then {SampleOf(r, h)} else {};
    }
  }

  lemma {:induction false} RowsAreDistinct(receipts: seq<Receipt>, w: string, h: Hashes)
    requires Consistent(receipts)
    ensures forall i, j | 0 <= i < j < |Rows(receipts, w, h)| :: Rows(receipts, w, h)[i].sampleId != Rows(receipts, w, h)[j].sampleId
  {
    if receipts != [] {
      var n := |receipts| - 1;
      RowsAreDistinct(receipts[..n], w, h);
      RowsAreSamples(receipts[..n], w, h);
      var rows := Rows(receipts[..n], w, h);
      forall i | 0 <= i < |rows| ensures rows[i].sampleId != receipts[n].sampleId {
        assert rows[i] in Elements(rows);
        var r :| r in receipts[..n] && r.windowId == w && SampleOf(r, h) == rows[i];
        var k :| 0 <= k < n && receipts[k] == r;
      }
    }
  }

  /** What the grouping loop knows after the receipts it has read. */
  ghost predicate Grouped(read: seq<Receipt>, grouped: map<string, seq<Sample>>, identity: map<string, Identity>,
                          seen: set<string>, h: Hashes)
  {
    && Consistent(read)
    && seen == (set r | r in read :: r.sampleId)
    && grouped.Keys == identity.Keys == (set r | r in read :: r.windowId)
    && (forall r | r in read :: identity[r.windowId] == IdentityOf(r))
    && (forall w | w in grouped :: grouped[w] == Rows(read, w, h))
  }

  lemma {:induction false} NoRows(receipts: seq<Receipt>, w: string, h: Hashes)
    requires forall r | r in receipts :: r.windowId != w
    ensures Rows(receipts, w, h) == []
  {
    if receipts != [] { NoRows(receipts[..|receipts| - 1], w, h); }
  }

  lemma ConsistentStep(read: seq<Receipt>, r: Receipt)
    requires Consistent(read)
    requires forall q | q in read :: q.sampleId != r.sampleId && (q.windowId == r.windowId ==> IdentityOf(q) == IdentityOf(r))
    ensures Consistent(read + [r])
  {
  }

  lemma GroupedStep(read: seq<Receipt>, r: Receipt, grouped: map<string, seq<Sample>>, identity: map<string, Identity>,
                    seen: set<string>, h: Hashes)
    requires Grouped(read, grouped, identity, seen, h)
    requires r.sampleId !in seen && (r.windowId in identity ==> identity[r.windowId] == IdentityOf(r))
    ensures var before := if r.windowId in grouped then grouped[r.windowId] else [];
            Grouped(read + [r], grouped[r.windowId := before + [SampleOf(r, h)]],
                    identity[r.windowId := IdentityOf(r)], seen + {r.sampleId}, h)
  {
    hide Consistent, SampleOf, IdentityOf, Rows;
    MemberStep(read, r);
    StrangerOrKin(read, r, grouped, identity, seen, h);
    ConsistentStep(read, r);
    var before := if r.windowId in grouped then grouped[r.windowId] else [];
    var grouped' := grouped[r.windowId := before + [SampleOf(r, h)]];
    forall w | w in grouped' ensures grouped'[w] == Rows(read + [r], w, h) {
      RowsStep(read, r, w, h);
      if w !in grouped { NoRows(read, w, h); }
    }
  }

  lemma MemberStep(read: seq<Receipt>, r: Receipt)
    ensures forall q :: q in read + [r] <==> q in read || q == r
    ensures (set q | q in read + [r] :: q.sampleId) == (set q | q in read :: q.sampleId) + {r.sampleId}
    ensures (set q | q in read + [r] :: q.windowId) == (set q | q in read :: q.windowId) + {r.windowId}
  {
    assert forall q :: q in read + [r] <==> q in read || q == r;
  }

  lemma StrangerOrKin(read: seq<Receipt>, r: Receipt, grouped: map<string, seq<Sample>>, identity: map<string, Identity>,
                      seen: set<string>, h: Hashes)
    requires Grouped(read, grouped, identity, seen, h)
    requires r.sampleId !in seen && (r.windowId in identity ==> identity[r.windowId] == IdentityOf(r))
    ensures forall q | q in read :: q.sampleId != r.sampleId && (q.windowId == r.windowId ==> IdentityOf(q) == IdentityOf(r))
  {
    hide Consistent, Rows, IdentityOf;
  }

  lemma RowsStep(read: seq<Receipt>, r: Receipt, w: string, h: Hashes)
    ensures Rows(read + [r], w, h) == Rows(read, w, h) + if r.windowId == w then [SampleOf(r, h)] else []
  {
    assert (read + [r])[..|read|] == read;
  }

  /** `build`: it succeeds exactly on consistent receipts, and then returns what they seal to. */
  method Build(receipts: seq<Receipt>, control: map<string, bool>, h: Hashes) returns (r: Result)
    ensures r.Ok? <==> Consistent(receipts)
    ensures r.Ok? ==> Sealed(r.evidence, Elements(receipts), control, h)
    ensures r.Err? ==> Blames(receipts, r.error)
  {
    hide Sealed, Consistent, Grouped, SampleOf;
    var error, grouped, identity, seen := Group(receipts, h);
    if error.Some? { return Result.Err(error.value); }
    assert Consistent(receipts) by { GroupedIsConsistent(receipts, grouped, identity, seen, h); }
    var windows := SealWindows(receipts, grouped, identity, seen, h);
    r := Result.Ok(Evidence(windows, control, h.ofEvidence(windows, control)));
    SealedByParts(r.evidence, Elements(receipts), control, h);
  }

  ghost predicate Blames(receipts: seq<Receipt>, error: Error) {
    match error
    case DuplicateSample(id) => exists i, j :: 0 <= i < j < |receipts| && receipts[i].sampleId == receipts[j].sampleId == id
    case MixedGeneration(w) =>
      exists i, j :: 0 <= i < j < |receipts| && receipts[i].windowId == receipts[j].windowId == w &&
                     IdentityOf(receipts[i]) != IdentityOf(receipts[j])
  }

  lemma BlamedIsInconsistent(receipts: seq<Receipt>, error: Error)
    requires Blames(receipts, error)
    ensures !Consistent(receipts)
  {
  }

  lemma GroupedIsConsistent(read: seq<Receipt>, grouped: map<string, seq<Sample>>, identity: map<string, Identity>,
                            seen: set<string>, h: Hashes)
    requires Grouped(read, grouped, identity, seen, h)
    ensures Consistent(read)
  {
  }

  /** The loop over the receipts. */
  method Group(receipts: seq<Receipt>, h: Hashes)
    returns (error: Option<Error>, grouped: map<string, seq<Sample>>, identity: map<string, Identity>, seen: set<string>)
    ensures error.Some? ==> Blames(receipts, error.value) && !Consistent(receipts)
    ensures error.None? ==> Grouped(receipts, grouped, identity, seen, h)
  {
    hide SampleOf, Rows, Consistent, IdentityOf;
    grouped, identity, seen, error := map[], map[], {}, None;
    assert Consistent([]) by { NothingIsConsistent(); }
    for n := 0 to |receipts|
      invariant Grouped(receipts[..n], grouped, identity, seen, h) && error == None
    {
      var item := receipts[n];
      if item.sampleId in seen {
        var i :| 0 <= i < n && receipts[i].sampleId == item.sampleId;
        BlamedIsInconsistent(receipts, DuplicateSample(item.sampleId));
        return Some(DuplicateSample(item.sampleId)), grouped, identity, seen;
      }
      var current := IdentityOf(item);
      if item.windowId in identity && identity[item.windowId] != current {
        var i :| 0 <= i < n && receipts[i].windowId == item.windowId;
        assert receipts[i] in receipts[..n];
        BlamedIsInconsistent(receipts, MixedGeneration(item.windowId));
        return Some(MixedGeneration(item.windowId)), grouped, identity, seen;
      }
      GroupedStep(receipts[..n], item, grouped, identity, seen, h);
      assert receipts[..n + 1] == receipts[..n] + [item];
      var before := if item.windowId in grouped then grouped[item.windowId] else [];
      grouped := grouped[item.windowId := before + [SampleOf(item, h)]];
      identity := identity[item.windowId := current];
      seen := seen + {item.sampleId};
    }
    assert receipts[..|receipts|] == receipts;
  }

  lemma NothingIsConsistent()
    ensures Consistent([])
  {
  }

  lemma SealedByParts(e: Evidence, receipts: set<Receipt>, control: map<string, bool>, h: Hashes)
    requires WindowIds(e.windows) == SortText(set r | r in receipts :: r.windowId)
    requires AllSealed(e.windows, receipts, h)
    requires e.control == control && e.evidenceHash == h.ofEvidence(e.windows, control)
    ensures Sealed(e, receipts, control, h)
  {
  }

  /** One window: its rows sorted, under its identity. */
  method SealWindow(ghost receipts: seq<Receipt>, grouped: map<string, seq<Sample>>, identity: map<string, Identity>,
                    ghost seen: set<string>, id: string, h: Hashes) returns (w: Window)
    requires Grouped(receipts, grouped, identity, seen, h) && id in grouped && id in identity
    ensures w.windowId == id && SealedWindow(w, Elements(receipts), h)
  {
    hide Less, KeyLess, SampleOf, Ascending, Consistent, Rows, IdentityOf;
    RowsAreDistinct(receipts, id, h);
    RowsAreSamples(receipts, id, h);
    var samples := SortSamples(grouped[id]);
    w := Window(id, identity[id], samples, h.ofSamples(samples));
  }

  lemma WindowsOf(receipts: seq<Receipt>, grouped: map<string, seq<Sample>>, identity: map<string, Identity>, seen: set<string>, h: Hashes)
    requires Grouped(receipts, grouped, identity, seen, h)
    ensures grouped.Keys == identity.Keys == set r | r in Elements(receipts) :: r.windowId
  {
    hide Consistent, Rows;
  }

  lemma ListedIds(ids: seq<string>)
    ensures forall i | 0 <= i < |ids| :: ids[i] in Elements(ids)
  {
  }

  ghost predicate AllSealed(windows: seq<Window>, receipts: set<Receipt>, h: Hashes) {
    forall w | w in windows :: SealedWindow(w, receipts, h)
  }

  lemma NoWindows(receipts: set<Receipt>, h: Hashes)
    ensures AllSealed([], receipts, h) && WindowIds([]) == []
  {
  }

  lemma WindowAppended(windows: seq<Window>, w: Window, receipts: set<Receipt>, h: Hashes)
    requires AllSealed(windows, receipts, h) && SealedWindow(w, receipts, h)
    ensures AllSealed(windows + [w], receipts, h) && WindowIds(windows + [w]) == WindowIds(windows) + [w.windowId]
  {
    hide SealedWindow;
  }

  method SealWindows(ghost receipts: seq<Receipt>, grouped: map<string, seq<Sample>>, identity: map<string, Identity>,
                     ghost seen: set<string>, h: Hashes) returns (windows: seq<Window>)
    requires Grouped(receipts, grouped, identity, seen, h)
    ensures WindowIds(windows) == SortText(set r | r in Elements(receipts) :: r.windowId)
    ensures AllSealed(windows, Elements(receipts), h)
  {
    hide Less, SortText, Ascending, Grouped, AllSealed, WindowIds, SealedWindow, Elements;
    WindowsOf(receipts, grouped, identity, seen, h);
    NoWindows(Elements(receipts), h);
    var ids := SortText(grouped.Keys);
    ListedIds(ids);
    windows := [];
    for i := 0 to |ids|
      invariant WindowIds(windows) == ids[..i] && AllSealed(windows, Elements(receipts), h)
    {
      var w := SealWindow(receipts, grouped, identity, seen, ids[i], h);
      WindowAppended(windows, w, Elements(receipts), h);
      assert ids[..i + 1] == ids[..i] + [ids[i]];
      windows := windows + [w];
    }
    assert ids[..|ids|] == ids;
  }

  // ------------------------------------------------------------------ order does not matter

  /** A set of receipts seals to one evidence. */
  lemma SealIsUnique(e: Evidence, f: Evidence, receipts: set<Receipt>, control: map<string, bool>, h: Hashes)
    requires Sealed(e, receipts, control, h) && Sealed(f, receipts, control, h)
    ensures e == f
  {
    hide Less, KeyLess;
    var ids := SortText(set r | r in receipts :: r.windowId);
    assert |e.windows| == |ids| == |f.windows|;
    forall i | 0 <= i < |ids| ensures e.windows[i] == f.windows[i] {
      var v, w := e.windows[i], f.windows[i];
      assert v.windowId == WindowIds(e.windows)[i] == WindowIds(f.windows)[i] == w.windowId;
      assert SealedWindow(v, receipts, h) && SealedWindow(w, receipts, h);
      KeyIsOrder();
      AscendingUnique(v.samples, w.samples, KeyLess);
      assert ids[i] in Elements(ids);
      var r :| r in receipts && r.windowId == v.windowId;
    }
    assert e.windows == f.windows;
  }

  lemma {:induction false} PermutationKeepsElements(a: seq<Receipt>, b: seq<Receipt>)
    requires multiset(a) == multiset(b)
    ensures Elements(a) == Elements(b)
  {
    forall x ensures x in a <==> x in b { assert x in multiset(a) <==> x in multiset(b); }
  }

  /** Consistency does not depend on the order of the receipts. */
  lemma PermutationKeepsConsistency(a: seq<Receipt>, b: seq<Receipt>)
    requires multiset(a) == multiset(b) && Consistent(a)
    ensures Consistent(b)
  {
    PermutationKeepsElements(a, b);
    forall i, j | 0 <= i < j < |b|
      ensures b[i].sampleId != b[j].sampleId
      ensures b[i].windowId == b[j].windowId ==> IdentityOf(b[i]) == IdentityOf(b[j])
    {
      if b[i] == b[j] {
        TwoPlaces(b, i, j);
        OnePlace(a, b[i]);
      } else {
        assert b[i] in Elements(b) && b[j] in Elements(b);
        var k, l :| 0 <= k < |a| && 0 <= l < |a| && a[k] == b[i] && a[l] == b[j];
      }
    }
  }

  lemma TwoPlaces(b: seq<Receipt>, i: nat, j: nat)
    requires i < j < |b| && b[i] == b[j]
    ensures multiset(b)[b[i]] >= 2
  {
    assert b == b[..i + 1] + b[i + 1..];
    assert b[i] in b[..i + 1] && b[i + 1..][j - i - 1] == b[j];
  }

  lemma {:induction false} OnePlace(a: seq<Receipt>, x: Receipt)
    requires Consistent(a)
    ensures multiset(a)[x] <= 1
  {
    if a != [] {
      var n := |a| - 1;
      assert a == a[..n] + [a[n]];
      OnePlace(a[..n], x);
      assert forall k | 0 <= k < n :: a[k] != a[n];
      assert a[n] !in a[..n];
    }
  }

  /** Order independence: runs over two orders of the same receipts fail alike, and evidence that one
      order seals to is the evidence the other seals to. */
  lemma OrderDoesNotMatter(a: seq<Receipt>, b: seq<Receipt>, e: Evidence, f: Evidence, control: map<string, bool>, h: Hashes)
    requires multiset(a) == multiset(b)
    ensures Consistent(a) <==> Consistent(b)
    ensures Sealed(e, Elements(a), control, h) && Sealed(f, Elements(b), control, h) ==> e == f
  {
    if Consistent(a) { PermutationKeepsConsistency(a, b); }
    if Consistent(b) { PermutationKeepsConsistency(b, a); }
    PermutationKeepsElements(a, b);
    if Sealed(e, Elements(a), control, h) && Sealed(f, Elements(b), control, h) {
      SealIsUnique(e, f, Elements(a), control, h);
    }
  }

  // ------------------------------------------------------------------ nothing is lost or made up

  /** The sample says what the receipt says; a receipt without a hash gets that of the rest. */
  ghost predicate Tells(s: Sample, r: Receipt, h: Hashes) {
    && s.sampleId == r.sampleId && s.domain == r.domain && s.inputHash == r.inputHash
    && s.productionHash == r.productionHash && s.shadowHash == r.shadowHash
    && (r.receiptHash != "" ==> s.receiptHash == r.receiptHash)
    && (r.receiptHash == "" ==> s.receiptHash == h.ofSample(s.(receiptHash := "")))
  }

  /** Each receipt is one sample of its own window, under the window's one identity, and no other
      sample of the evidence carries its id. */
  lemma EachReceiptOnce(receipts: seq<Receipt>, e: Evidence, control: map<string, bool>, h: Hashes, r: Receipt)
    returns (i: nat, j: nat)
    requires Consistent(receipts) && Sealed(e, Elements(receipts), control, h) && r in receipts
    ensures i < |e.windows| && j < |e.windows[i].samples|
    ensures e.windows[i].windowId == r.windowId && e.windows[i].identity == Identity(r.generationSeq, r.generationHash, r.fencingToken)
    ensures e.windows[i].samples[j] == SampleOf(r, h) && Tells(e.windows[i].samples[j], r, h)
    ensures forall k, l | 0 <= k < |e.windows| && 0 <= l < |e.windows[k].samples| && e.windows[k].samples[l].sampleId == r.sampleId ::
              k == i && l == j
  {
    hide Less, KeyLess;
    var ids := SortText(set x | x in Elements(receipts) :: x.windowId);
    assert r.windowId in Elements(ids);
    i :| 0 <= i < |ids| && ids[i] == r.windowId;
    assert e.windows[i].windowId == WindowIds(e.windows)[i];
    assert SealedWindow(e.windows[i], Elements(receipts), h);
    assert SampleOf(r, h) in Elements(e.windows[i].samples);
    j :| 0 <= j < |e.windows[i].samples| && e.windows[i].samples[j] == SampleOf(r, h);
    forall k, l | 0 <= k < |e.windows| && 0 <= l < |e.windows[k].samples| && e.windows[k].samples[l].sampleId == r.sampleId
      ensures k == i && l == j
    {
      SamplePlace(receipts, e, control, h, r, i, j, k, l);
    }
  }

  lemma SamplePlace(receipts: seq<Receipt>, e: Evidence, control: map<string, bool>, h: Hashes, r: Receipt, i: nat, j: nat, k: nat, l: nat)
    requires Consistent(receipts) && Sealed(e, Elements(receipts), control, h) && r in receipts
    requires i < |e.windows| && j < |e.windows[i].samples| && e.windows[i].windowId == r.windowId && e.windows[i].samples[j] == SampleOf(r, h)
    requires k < |e.windows| && l < |e.windows[k].samples| && e.windows[k].samples[l].sampleId == r.sampleId
    ensures k == i && l == j
  {
    hide Less, KeyLess;
    var w := e.windows[k];
    assert SealedWindow(w, Elements(receipts), h);
    assert w.samples[l] in Elements(w.samples);
    var q :| q in Elements(receipts) && q.windowId == w.windowId && SampleOf(q, h) == w.samples[l];
    SameSampleSameReceipt(receipts, q, r);
    var ids := WindowIds(e.windows);
    assert ids[k] == r.windowId == ids[i];
    TextIsOrdered();
    AscendingInjective(ids, k, i, Less);
    KeyIsOrder();
    AscendingInjective(w.samples, l, j, KeyLess);
  }

  lemma SameSampleSameReceipt(receipts: seq<Receipt>, q: Receipt, r: Receipt)
    requires Consistent(receipts) && q in receipts && r in receipts && q.sampleId == r.sampleId
    ensures q == r
  {
    var a, b :| 0 <= a < |receipts| && 0 <= b < |receipts| && receipts[a] == q && receipts[b] == r;
    assert !(a < b) && !(b < a);
  }

  /** Every sample stems from a receipt of that window. */
  lemma NothingIsMadeUp(receipts: seq<Receipt>, e: Evidence, control: map<string, bool>, h: Hashes, i: nat, j: nat)
    requires Sealed(e, Elements(receipts), control, h) && i < |e.windows| && j < |e.windows[i].samples|
    ensures exists r :: r in receipts && r.windowId == e.windows[i].windowId && SampleOf(r, h) == e.windows[i].samples[j]
  {
    assert SealedWindow(e.windows[i], Elements(receipts), h);
    assert e.windows[i].samples[j] in Elements(e.windows[i].samples);
  }
}
