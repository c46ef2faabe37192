/** What the turn's ledger knows about each citation reference: at most one number, at most one
    publication record. */
module HostLedgers {
  import opened Base
  import opened TurnLedger

  datatype Reject =
    | CrossAnchor | DuplicateRef(ref: string) | UnresolvedRef | UnknownRef(ref: string)
    | FactLimit | InferenceLimit | DuplicateClaim(claim: string) | UnknownFact(claim: string)
    | NumericGuard | ClaimGuard

  datatype Outcome<T> = Accepted(value: T) | Rejected(reason: Reject)

  /** A reference with the ledger position of the entry that carries it. */
  function Tagged(refs: seq<string>, i: nat): (ps: seq<(string, nat)>)
    ensures |ps| == |refs| && forall k :: 0 <= k < |refs| ==> ps[k] == (refs[k], i)
  {
    seq(|refs|, k requires 0 <= k < |refs| => (refs[k], i))
  }

  /** Every reference of an entry with numeric fields, in ledger order. */
  function NumericRefs(es: seq<Entry>): seq<(string, nat)> {
    if es == [] then []
    else
      var n := |es| - 1;
      NumericRefs(es[..n]) + if es[n].numeric.Some? then Tagged(es[n].refs, n) else []
  }

  /** Every reference of an entry with publication fields, in ledger order. */
  function MetaRefs(es: seq<Entry>): seq<(string, nat)> {
    if es == [] then []
    else
      var n := |es| - 1;
      MetaRefs(es[..n]) + if es[n].metadata.Some? then Tagged(es[n].refs, n) else []
  }

  ghost predicate Once(ps: seq<(string, nat)>) {
    forall i, j :: 0 <= i < j < |ps| ==> ps[i].0 != ps[j].0
  }

  /** The look-up table of a list of tagged references. */
  function Table(ps: seq<(string, nat)>): map<string, nat> {
    if ps == [] then map[] else Table(ps[..|ps| - 1])[ps[|ps| - 1].0 := ps[|ps| - 1].1]
  }

  ghost predicate OneAnchor(es: seq<Entry>) {
    forall i :: 0 <= i < |es| ==> es[i].anchor == es[0].anchor
  }

  ghost predicate AnchorsMatch(e: Entry) {
    e.metadata.Some? && e.refs != [] && e.metadata.value.anchor.Some? ==> e.metadata.value.anchor.value == e.anchor
  }

  ghost predicate MetaAnchors(es: seq<Entry>) {
    forall i :: 0 <= i < |es| ==> AnchorsMatch(es[i])
  }

  /** A ledger whose references each have at most one number and at most one publication record, all
      of one anchor. */
  ghost predicate Sound(es: seq<Entry>) {
    OneAnchor(es) && MetaAnchors(es) && Once(NumericRefs(es)) && Once(MetaRefs(es))
  }

  datatype HostLedger = HostLedger(anchor: Option<string>, numeric: map<string, nat>, metadata: map<string, nat>)

  function HostOf(es: seq<Entry>): HostLedger {
    HostLedger(if es == [] then None else Some(es[0].anchor), Table(NumericRefs(es)), Table(MetaRefs(es)))
  }

  /** Both halves of a citation are known. */
  predicate Resolves(h: HostLedger, ref: string) {
    ref in h.numeric && ref in h.metadata
  }

  lemma {:induction false} TableExact(ps: seq<(string, nat)>)
    ensures forall r :: r in Table(ps) <==> exists k :: 0 <= k < |ps| && ps[k].0 == r
    ensures Once(ps) ==> forall k :: 0 <= k < |ps| ==> Table(ps)[ps[k].0] == ps[k].1
  {
    if ps != [] {
      var n := |ps| - 1;
      var front := ps[..n];
      TableExact(front);
      assert forall k :: 0 <= k < n ==> front[k] == ps[k];
      forall r
        ensures r in Table(ps) <==> exists k :: 0 <= k < |ps| && ps[k].0 == r
      {
        if r in Table(front) {
          var k :| 0 <= k < |front| && front[k].0 == r;
          assert ps[k].0 == r;
        }
        if k :| 0 <= k < |ps| && ps[k].0 == r {
          assert k < n ==> front[k].0 == r;
        }
      }
      if Once(ps) {
        assert Once(front);
      }
    }
  }

  lemma TableIndex(ps: seq<(string, nat)>, ref: string) returns (k: nat)
    requires ref in Table(ps)
    ensures k < |ps| && ps[k].0 == ref
  {
    TableExact(ps);
    k :| k < |ps| && ps[k].0 == ref;
  }

  lemma OnceExtend(ps: seq<(string, nat)>, ref: string, i: nat)
    requires Once(ps)
    ensures Once(ps + [(ref, i)]) <==> ref !in Table(ps)
    ensures Table(ps + [(ref, i)]) == Table(ps)[ref := i]
  {
    var longer := ps + [(ref, i)];
    TableExact(ps);
    assert longer[..|ps|] == ps;
    if ref in Table(ps) {
      var k :| 0 <= k < |ps| && ps[k].0 == ref;
      assert longer[k].0 == longer[|ps|].0;
    }
  }

  /** Where a tagged reference comes from. */
  lemma {:induction false} NumericRefsFrom(es: seq<Entry>, k: nat)
    requires k < |NumericRefs(es)|
    ensures var p := NumericRefs(es)[k]; p.1 < |es| && p.0 in es[p.1].refs && es[p.1].numeric.Some?
  {
    var n := |es| - 1;
    var front := NumericRefs(es[..n]);
    if k < |front| {
      NumericRefsFrom(es[..n], k);
      assert NumericRefs(es)[k] == front[k];
    } else {
      assert NumericRefs(es)[k] == Tagged(es[n].refs, n)[k - |front|];
    }
  }

  lemma {:induction false} MetaRefsFrom(es: seq<Entry>, k: nat)
    requires k < |MetaRefs(es)|
    ensures var p := MetaRefs(es)[k]; p.1 < |es| && p.0 in es[p.1].refs && es[p.1].metadata.Some?
  {
    var n := |es| - 1;
    var front := MetaRefs(es[..n]);
    if k < |front| {
      MetaRefsFrom(es[..n], k);
      assert MetaRefs(es)[k] == front[k];
    } else {
      assert MetaRefs(es)[k] == Tagged(es[n].refs, n)[k - |front|];
    }
  }

  /** Every numeric entry's references are listed. */
  lemma {:induction false} NumericRefsHas(es: seq<Entry>, i: nat, ref: string)
    requires i < |es| && es[i].numeric.Some? && ref in es[i].refs
    ensures (ref, i) in NumericRefs(es)
  {
    var n := |es| - 1;
    if i < n {
      NumericRefsHas(es[..n], i, ref);
    } else {
      var k :| 0 <= k < |es[n].refs| && es[n].refs[k] == ref;
      assert Tagged(es[n].refs, n)[k] == (ref, n);
    }
  }

  /** Two entries with a number for the same reference are the same entry. */
  lemma SameNumericEntry(es: seq<Entry>, ref: string, i: nat, j: nat)
    requires Once(NumericRefs(es)) && i < |es| && j < |es|
    requires ref in es[i].refs && es[i].numeric.Some? && ref in es[j].refs && es[j].numeric.Some?
    ensures i == j
  {
    NumericRefsHas(es, i, ref);
    NumericRefsHas(es, j, ref);
  }

  /** The entry a reference's number comes from is the only one in the ledger with a number for it. */
  lemma NumericUnique(es: seq<Entry>, ref: string)
    requires Once(NumericRefs(es)) && ref in Table(NumericRefs(es))
    ensures var i := Table(NumericRefs(es))[ref];
            && i < |es| && ref in es[i].refs && es[i].numeric.Some?
            && (forall j :: 0 <= j < |es| && ref in es[j].refs && es[j].numeric.Some? ==> j == i)
  {
    NumericFound(es, ref);
    var i := Table(NumericRefs(es))[ref];
    forall j: nat | j < |es| && ref in es[j].refs && es[j].numeric.Some?
      ensures j == i
    {
      SameNumericEntry(es, ref, i, j);
    }
  }

  lemma NumericFound(es: seq<Entry>, ref: string)
    requires Once(NumericRefs(es)) && ref in Table(NumericRefs(es))
    ensures var i := Table(NumericRefs(es))[ref]; i < |es| && ref in es[i].refs && es[i].numeric.Some?
  {
    var ps := NumericRefs(es);
    TableExact(ps);
    var k := TableIndex(ps, ref);
    NumericRefsFrom(es, k);
  }

  lemma {:induction false} MetaRefsHas(es: seq<Entry>, i: nat, ref: string)
    requires i < |es| && es[i].metadata.Some? && ref in es[i].refs
    ensures (ref, i) in MetaRefs(es)
  {
    var n := |es| - 1;
    if i < n {
      MetaRefsHas(es[..n], i, ref);
    } else {
      var k :| 0 <= k < |es[n].refs| && es[n].refs[k] == ref;
      assert Tagged(es[n].refs, n)[k] == (ref, n);
    }
  }

  lemma SameMetaEntry(es: seq<Entry>, ref: string, i: nat, j: nat)
    requires Once(MetaRefs(es)) && i < |es| && j < |es|
    requires ref in es[i].refs && es[i].metadata.Some? && ref in es[j].refs && es[j].metadata.Some?
    ensures i == j
  {
    MetaRefsHas(es, i, ref);
    MetaRefsHas(es, j, ref);
  }

  /** The entry a reference's publication record comes from is the only one with such a record for it. */
  lemma MetaUnique(es: seq<Entry>, ref: string)
    requires Once(MetaRefs(es)) && ref in Table(MetaRefs(es))
    ensures var i := Table(MetaRefs(es))[ref];
            && i < |es| && ref in es[i].refs && es[i].metadata.Some?
            && (forall j :: 0 <= j < |es| && ref in es[j].refs && es[j].metadata.Some? ==> j == i)
  {
    MetaFound(es, ref);
    var i := Table(MetaRefs(es))[ref];
    forall j: nat | j < |es| && ref in es[j].refs && es[j].metadata.Some?
      ensures j == i
    {
      SameMetaEntry(es, ref, i, j);
    }
  }

  lemma MetaFound(es: seq<Entry>, ref: string)
    requires Once(MetaRefs(es)) && ref in Table(MetaRefs(es))
    ensures var i := Table(MetaRefs(es))[ref]; i < |es| && ref in es[i].refs && es[i].metadata.Some?
  {
    var ps := MetaRefs(es);
    TableExact(ps);
    var k := TableIndex(ps, ref);
    MetaRefsFrom(es, k);
  }

  lemma {:induction false} NumericRefsPrefix(es: seq<Entry>, i: nat)
    requires i <= |es|
    ensures NumericRefs(es[..i]) <= NumericRefs(es)
  {
    var n := |es| - 1;
    if i <= n {
      assert es[..n][..i] == es[..i];
      NumericRefsPrefix(es[..n], i);
    } else {
      assert es[..i] == es;
    }
  }

  lemma {:induction false} MetaRefsPrefix(es: seq<Entry>, i: nat)
    requires i <= |es|
    ensures MetaRefs(es[..i]) <= MetaRefs(es)
  {
    var n := |es| - 1;
    if i <= n {
      assert es[..n][..i] == es[..i];
      MetaRefsPrefix(es[..n], i);
    } else {
      assert es[..i] == es;
    }
  }

  /** The references listed when entry `i` has been read up to its reference `k`. */
  ghost function NumericSoFar(es: seq<Entry>, i: nat, k: nat): seq<(string, nat)>
    requires i < |es| && k <= |es[i].refs|
  {
    NumericRefs(es[..i]) + if es[i].numeric.Some? then Tagged(es[i].refs[..k], i) else []
  }

  ghost function MetaSoFar(es: seq<Entry>, i: nat, k: nat): seq<(string, nat)>
    requires i < |es| && k <= |es[i].refs|
  {
    MetaRefs(es[..i]) + if es[i].metadata.Some? then Tagged(es[i].refs[..k], i) else []
  }

  lemma SoFarStep(es: seq<Entry>, i: nat, k: nat)
    requires i < |es| && k < |es[i].refs|
    ensures NumericSoFar(es, i, k + 1) == 
              NumericSoFar(es, i, k) + if es[i].numeric.Some? then [(es[i].refs[k], i)] else []
    ensures MetaSoFar(es, i, k + 1) == MetaSoFar(es, i, k) + if es[i].metadata.Some? then [(es[i].refs[k], i)] else []
  {
    assert Tagged(es[i].refs[..k + 1], i) == Tagged(es[i].refs[..k], i) + [(es[i].refs[k], i)];
  }

  lemma SoFarEnds(es: seq<Entry>, i: nat)
    requires i < |es|
    ensures NumericSoFar(es, i, 0) == NumericRefs(es[..i]) && MetaSoFar(es, i, 0) == MetaRefs(es[..i])
    ensures NumericSoFar(es, i, |es[i].refs|) == NumericRefs(es[..i + 1])
            && MetaSoFar(es, i, |es[i].refs|) == MetaRefs(es[..i + 1])
  {
    assert es[..i + 1][..i] == es[..i];
    assert es[i].refs[..|es[i].refs|] == es[i].refs;
  }

  lemma {:induction false} SoFarPrefix(es: seq<Entry>, i: nat, k: nat)
    requires i < |es| && k <= |es[i].refs|
    ensures NumericSoFar(es, i, k) <= NumericRefs(es[..i + 1]) && MetaSoFar(es, i, k) <= MetaRefs(es[..i + 1])
    decreases |es[i].refs| - k
  {
    hide NumericSoFar, MetaSoFar, NumericRefs, MetaRefs;
    if k == |es[i].refs| {
      SoFarEnds(es, i);
    } else {
      SoFarStep(es, i, k);
      SoFarPrefix(es, i, k + 1);
    }
  }

  lemma SoFarOnce(es: seq<Entry>, i: nat, k: nat)
    requires i < |es| && k <= |es[i].refs|
    ensures Once(NumericRefs(es)) ==> Once(NumericSoFar(es, i, k))
    ensures Once(MetaRefs(es)) ==> Once(MetaSoFar(es, i, k))
  {
    hide NumericSoFar, MetaSoFar, NumericRefs, MetaRefs, Once;
    SoFarPrefix(es, i, k);
    NumericRefsPrefix(es, i + 1);
    MetaRefsPrefix(es, i + 1);
    if Once(NumericRefs(es)) {
      OnceShorter(NumericSoFar(es, i, k), NumericRefs(es));
    }
    if Once(MetaRefs(es)) {
      OnceShorter(MetaSoFar(es, i, k), MetaRefs(es));
    }
  }

  lemma OnceShorter(ps: seq<(string, nat)>, qs: seq<(string, nat)>)
    requires Once(qs) && ps <= qs
    ensures Once(ps)
  {
    assert forall i :: 0 <= i < |ps| ==> ps[i] == qs[i];
  }

  /** The part of `hostLedger` that reads one entry. */
  method ReadEntry(es: seq<Entry>, i: nat, h: HostLedger) returns (r: Outcome<HostLedger>)
    requires i < |es| && h.anchor == Some(es[0].anchor)
    requires h.numeric == Table(NumericRefs(es[..i])) && Once(NumericRefs(es[..i]))
    requires h.metadata == Table(MetaRefs(es[..i])) && Once(MetaRefs(es[..i]))
    ensures r.Accepted? ==>
              && es[i].anchor == es[0].anchor && AnchorsMatch(es[i])
              && r.value == HostLedger(h.anchor, Table(NumericRefs(es[..i + 1])), Table(MetaRefs(es[..i + 1])))
              && Once(NumericRefs(es[..i + 1])) && Once(MetaRefs(es[..i + 1]))
    ensures r.Rejected? ==> !Sound(es)
    ensures r.Rejected? ==> if r.reason.CrossAnchor? then !OneAnchor(es) || !MetaAnchors(es) else r.reason.DuplicateRef?
  {
    var e := es[i];
    if h.anchor != Some(e.anchor) {
      return Rejected(CrossAnchor);
    }
    var numeric, metadata := h.numeric, h.metadata;
    SoFarEnds(es, i);
    for k := 0 to |e.refs|
      invariant numeric == Table(NumericSoFar(es, i, k)) && Once(NumericSoFar(es, i, k))
      invariant metadata == Table(MetaSoFar(es, i, k)) && Once(MetaSoFar(es, i, k))
      invariant k > 0 ==> AnchorsMatch(e)
    {
      var ref := e.refs[k];
      SoFarStep(es, i, k);
      SoFarOnce(es, i, k + 1);
      OnceExtend(NumericSoFar(es, i, k), ref, i);
      OnceExtend(MetaSoFar(es, i, k), ref, i);
      hide Table, Once, NumericSoFar, MetaSoFar;
      if e.numeric.Some? {
        if ref in numeric {
          return Rejected(DuplicateRef(ref));
        }
        numeric := numeric[ref := i];
      }
      if e.metadata.Some? {
        if ref in metadata {
          return Rejected(DuplicateRef(ref));
        }
        if e.metadata.value.anchor.Some? && e.metadata.value.anchor.value != e.anchor {
          return Rejected(CrossAnchor);
        }
        metadata := metadata[ref := i];
      }
    }
    r := Accepted(HostLedger(h.anchor, numeric, metadata));
  }

  /** `hostLedger`: accepted exactly when the ledger is sound. */
  method ReadHostLedger(es: seq<Entry>) returns (r: Outcome<HostLedger>)
    ensures r.Accepted? <==> Sound(es)
    ensures r.Accepted? ==> r.value == HostOf(es)
    ensures r.Rejected? ==> if r.reason.CrossAnchor? then !OneAnchor(es) || !MetaAnchors(es) else r.reason.DuplicateRef?
  {
    var h := HostLedger(None, map[], map[]);
    for i := 0 to |es|
      invariant h.anchor == if i == 0 then None else Some(es[0].anchor)
      invariant h.numeric == Table(NumericRefs(es[..i])) && Once(NumericRefs(es[..i]))
      invariant h.metadata == Table(MetaRefs(es[..i])) && Once(MetaRefs(es[..i]))
      invariant forall j :: 0 <= j < i ==> es[j].anchor == es[0].anchor && AnchorsMatch(es[j])
    {
      if h.anchor.None? {
        h := h.(anchor := Some(es[i].anchor));
      }
      var next := ReadEntry(es, i, h);
      if next.Rejected? {
        return next;
      }
      h := next.value;
    }
    assert es[..|es|] == es;
    r := Accepted(h);
  }
}
