/** The browser's view of a brief: citation references are replaced by aliases, everything else is
    carried over. */
module Projection {
  import opened Base
  import opened TurnLedger
  import opened HostLedgers
  import opened Finalizer
  import Decimal

  datatype BrowserSource = BrowserSource(ref: string, caption: string, source: string, publicUrl: Option<string>,
                                         publishedAt: Option<string>)

  /** The projected artifact: the brief's own fields around aliased facts, lineage and sources. */
  datatype BrowserBrief = BrowserBrief(brief: Brief, sources: seq<BrowserSource>)

  function AliasId(i: nat): string {
    "source-" + Decimal.ToText(i + 1)
  }

  function AliasLabel(i: nat): string {
    "Source " + Decimal.ToText(i + 1)
  }

  /** Different sources get different aliases. */
  lemma AliasInjective(i: nat, j: nat)
    requires AliasId(i) == AliasId(j)
    ensures i == j
  {
    assert AliasId(i)[7..] == Decimal.ToText(i + 1) && AliasId(j)[7..] == Decimal.ToText(j + 1);
    Decimal.Injective(i + 1, j + 1);
  }

  /** The alias table: position by reference. */
  function Positions(ss: seq<Source>): map<string, nat> {
    if ss == [] then map[] else Positions(ss[..|ss| - 1])[ss[|ss| - 1].ref := |ss| - 1]
  }

  lemma {:induction false} PositionsExact(ss: seq<Source>)
    ensures forall r :: r in Positions(ss) <==> r in SourceRefs(ss)
    ensures forall r :: r in Positions(ss) ==> Positions(ss)[r] < |ss| && ss[Positions(ss)[r]].ref == r
  {
    if ss != [] {
      var n := |ss| - 1;
      PositionsExact(ss[..n]);
      assert SourceRefs(ss) == SourceRefs(ss[..n]) + [ss[n].ref];
    }
  }

  function Renamed(s: Source, i: nat): BrowserSource {
    BrowserSource(AliasId(i), AliasLabel(i), s.source, s.publicUrl, s.publishedAt)
  }

  function RenamedAll(ss: seq<Source>): (bs: seq<BrowserSource>)
    ensures |bs| == |ss| && forall i :: 0 <= i < |ss| ==> bs[i] == Renamed(ss[i], i)
  {
    seq(|ss|, i requires 0 <= i < |ss| => Renamed(ss[i], i))
  }

  predicate Known(refs: seq<string>, table: map<string, nat>) {
    forall k :: 0 <= k < |refs| ==> refs[k] in table
  }

  /** `citationAliases`, for known references. */
  function Aliased(refs: seq<string>, table: map<string, nat>): (named: seq<string>)
    requires Known(refs, table)
    ensures |named| == |refs| && forall k :: 0 <= k < |refs| ==> named[k] == AliasId(table[refs[k]])
  {
    seq(|refs|, k requires 0 <= k < |refs| => AliasId(table[refs[k]]))
  }

  predicate KnownFact(h: HydratedFact, table: map<string, nat>) {
    h.QualitativeFact? ==> Known(h.refs, table)
  }

  /** `projectFact` */
  function ProjectFact(h: HydratedFact, table: map<string, nat>): HydratedFact
    requires KnownFact(h, table)
  {
    if h.NumericFact? then h else h.(refs := Aliased(h.refs, table))
  }

  function ProjectFacts(hs: seq<HydratedFact>, table: map<string, nat>): (ps: seq<HydratedFact>)
    requires forall i :: 0 <= i < |hs| ==> KnownFact(hs[i], table)
    ensures |ps| == |hs| && forall i :: 0 <= i < |hs| ==> ps[i] == ProjectFact(hs[i], table)
  {
    seq(|hs|, i requires 0 <= i < |hs| => ProjectFact(hs[i], table))
  }

  /** `projectLineage` */
  function ProjectLineage(lines: map<string, Lineage>, table: map<string, nat>): map<string, Lineage>
    requires forall c :: c in lines ==> Known(lines[c].refs, table)
  {
    map c | c in lines :: lines[c].(refs := Aliased(lines[c].refs, table))
  }

  /** Exactly the briefs on which no duplicate check and no alias look-up fails. */
  ghost predicate Projectable(b: Brief) {
    && NoRepeats(SourceRefs(b.sources))
    && (forall i :: 0 <= i < |b.facts| ==> KnownFact(b.facts[i], Positions(b.sources)))
    && (forall c :: c in b.lineage ==> Known(b.lineage[c].refs, Positions(b.sources)))
  }

  ghost function Projected(b: Brief): BrowserBrief
    requires Projectable(b)
  {
    var table := Positions(b.sources);
    BrowserBrief(b.(facts := ProjectFacts(b.facts, table), lineage := ProjectLineage(b.lineage, table), sources := []),
                 RenamedAll(b.sources))
  }

  /** The alias map filled while the sources are mapped; a repeated reference is an error. */
  method AliasSources(ss: seq<Source>) returns (ok: bool, table: map<string, nat>, sources: seq<BrowserSource>)
    ensures ok <==> NoRepeats(SourceRefs(ss))
    ensures ok ==> table == Positions(ss) && sources == RenamedAll(ss)
  {
    table, sources := map[], [];
    for i := 0 to |ss|
      invariant table == Positions(ss[..i]) && sources == RenamedAll(ss[..i]) && NoRepeats(SourceRefs(ss[..i]))
    {
      assert ss[..i + 1][..i] == ss[..i];
      PositionsExact(ss[..i]);
      assert SourceRefs(ss[..i + 1]) == SourceRefs(ss[..i]) + [ss[i].ref];
      if ss[i].ref in table {
        Repeated(ss, i);
        return false, table, sources;
      }
      table := table[ss[i].ref := i];
      sources := sources + [Renamed(ss[i], i)];
    }
    assert ss[..|ss|] == ss;
    ok := true;
  }

  lemma Repeated(ss: seq<Source>, i: nat)
    requires i < |ss| && ss[i].ref in SourceRefs(ss[..i])
    ensures !NoRepeats(SourceRefs(ss))
  {
    var k :| 0 <= k < i && SourceRefs(ss[..i])[k] == ss[i].ref;
    assert SourceRefs(ss)[k] == SourceRefs(ss)[i];
  }

  /** `projectMarketBrief`; None is a thrown error. */
  method ProjectMarketBrief(b: Brief) returns (r: Option<BrowserBrief>)
    ensures r.Some? <==> Projectable(b)
    ensures r.Some? ==> r.value == Projected(b)
  {
    var ok, table, sources := AliasSources(b.sources);
    if !ok {
      return None;
    }
    if exists i :: 0 <= i < |b.facts| && !KnownFact(b.facts[i], table) {
      return None;
    }
    if exists c :: c in b.lineage && !Known(b.lineage[c].refs, table) {
      return None;
    }
    r := Some(BrowserBrief(b.(facts := ProjectFacts(b.facts, table), lineage := ProjectLineage(b.lineage, table),
                              sources := []), sources));
  }

  datatype Artifact = Supported(value: BrowserBrief) | Unsupported

  /** `projectArtifactForBrowser`; `leaks` is whether the projected JSON text contains "h1.". */
  method ProjectArtifact(b: Brief, leaks: BrowserBrief -> bool) returns (a: Artifact)
    ensures a.Supported? <==> Projectable(b) && !leaks(Projected(b))
    ensures a.Supported? ==> a.value == Projected(b)
  {
    var projected := ProjectMarketBrief(b);
    a := if projected.None? || leaks(projected.value) then Unsupported else Supported(projected.value);
  }

  // ---------------------------------------------------------------- meaning is preserved

  /** What a citation means: the source it names. */
  datatype Meaning = Meaning(source: string, publicUrl: Option<string>, publishedAt: Option<string>)

  /** Look a raw reference up in the brief's sources. */
  function RawMeaning(ss: seq<Source>, ref: string): Option<Meaning> {
    if ss == [] then None
    else if ss[0].ref == ref then Some(Meaning(ss[0].source, ss[0].publicUrl, ss[0].publishedAt))
    else RawMeaning(ss[1..], ref)
  }

  /** Look an alias up in the projected sources. */
  function AliasMeaning(bs: seq<BrowserSource>, alias: string): Option<Meaning> {
    if bs == [] then None
    else if bs[0].ref == alias then Some(Meaning(bs[0].source, bs[0].publicUrl, bs[0].publishedAt))
    else AliasMeaning(bs[1..], alias)
  }

  lemma {:induction false} RawMeaningAt(ss: seq<Source>, i: nat)
    requires i < |ss| && forall j :: 0 <= j < i ==> ss[j].ref != ss[i].ref
    ensures RawMeaning(ss, ss[i].ref) == Some(Meaning(ss[i].source, ss[i].publicUrl, ss[i].publishedAt))
  {
    if i > 0 {
      RawMeaningAt(ss[1..], i - 1);
    }
  }

  lemma {:induction false} AliasMeaningAt(bs: seq<BrowserSource>, i: nat)
    requires i < |bs| && forall j :: 0 <= j < i ==> bs[j].ref != bs[i].ref
    ensures AliasMeaning(bs, bs[i].ref) == Some(Meaning(bs[i].source, bs[i].publicUrl, bs[i].publishedAt))
  {
    if i > 0 {
      AliasMeaningAt(bs[1..], i - 1);
    }
  }

  /** A reference and its alias mean the same source. */
  lemma SameMeaning(ss: seq<Source>, ref: string)
    requires NoRepeats(SourceRefs(ss)) && ref in Positions(ss)
    ensures RawMeaning(ss, ref).Some?
    ensures AliasMeaning(RenamedAll(ss), AliasId(Positions(ss)[ref])) == RawMeaning(ss, ref)
  {
    PositionsExact(ss);
    var i, bs := Positions(ss)[ref], RenamedAll(ss);
    assert forall j :: 0 <= j < i ==> SourceRefs(ss)[j] != SourceRefs(ss)[i];
    RawMeaningAt(ss, i);
    forall j: nat | j < i
      ensures bs[j].ref != bs[i].ref
    {
      if AliasId(j) == AliasId(i) {
        AliasInjective(j, i);
      }
    }
    AliasMeaningAt(bs, i);
  }

  /** Every citation of the list means in the projection what it meant in the brief. */
  ghost predicate MeansTheSame(b: Brief, p: BrowserBrief, refs: seq<string>, aliases: seq<string>) {
    && |aliases| == |refs|
    && (forall k :: 0 <= k < |refs| ==>
          RawMeaning(b.sources, refs[k]).Some? && AliasMeaning(p.sources, aliases[k]) == RawMeaning(b.sources, refs[k]))
  }

  lemma AliasedMeansTheSame(b: Brief, refs: seq<string>)
    requires Projectable(b) && Known(refs, Positions(b.sources))
    ensures MeansTheSame(b, Projected(b), refs, Aliased(refs, Positions(b.sources)))
  {
    hide RawMeaning, AliasMeaning, Positions, AliasId;
    forall k | 0 <= k < |refs|
      ensures RawMeaning(b.sources, refs[k]).Some?
      ensures AliasMeaning(Projected(b).sources, AliasId(Positions(b.sources)[refs[k]])) ==
                RawMeaning(b.sources, refs[k])
    {
      SameMeaning(b.sources, refs[k]);
    }
  }

  /** Facts and lineage of a projection, against the brief it came from. */
  ghost predicate Faithful(b: Brief, p: BrowserBrief) {
    && |p.brief.facts| == |b.facts|
    && (forall i :: 0 <= i < |b.facts| ==> FaithfulFact(b, p, b.facts[i], p.brief.facts[i]))
    && p.brief.lineage.Keys == b.lineage.Keys
    && (forall c :: c in b.lineage ==>
          p.brief.lineage[c].observations == b.lineage[c].observations
          && MeansTheSame(b, p, b.lineage[c].refs, p.brief.lineage[c].refs))
    && p.brief == b.(facts := p.brief.facts, lineage := p.brief.lineage, sources := [])
  }

  ghost predicate FaithfulFact(b: Brief, p: BrowserBrief, h: HydratedFact, h': HydratedFact) {
    match h
    case NumericFact(_, _, _) => h' == h
    case QualitativeFact(claim, confidence, text, refs) =>
      h'.QualitativeFact? && h' == h.(refs := h'.refs) && MeansTheSame(b, p, refs, h'.refs)
  }

  /** A projection keeps what every citation means. */
  lemma ProjectionFaithful(b: Brief)
    requires Projectable(b)
    ensures Faithful(b, Projected(b))
  {
    hide MeansTheSame, Positions;
    var p := Projected(b);
    forall i | 0 <= i < |b.facts|
      ensures FaithfulFact(b, p, b.facts[i], p.brief.facts[i])
    {
      assert KnownFact(b.facts[i], Positions(b.sources));
      if b.facts[i].QualitativeFact? {
        AliasedMeansTheSame(b, b.facts[i].refs);
      }
    }
    forall c | c in b.lineage
      ensures MeansTheSame(b, p, b.lineage[c].refs, p.brief.lineage[c].refs)
    {
      AliasedMeansTheSame(b, b.lineage[c].refs);
    }
  }

  /** Aliases and cited references are in bijection: source `i` is alias `i`, both ways. */
  lemma AliasesBijective(b: Brief, i: nat, j: nat)
    requires Projectable(b) && i < |b.sources| && j < |b.sources|
    ensures b.sources[i].ref in Positions(b.sources) && Positions(b.sources)[b.sources[i].ref] == i
    ensures Projected(b).sources[i].ref == Projected(b).sources[j].ref <==> b.sources[i].ref == b.sources[j].ref
  {
    PositionsExact(b.sources);
    var rs := SourceRefs(b.sources);
    assert rs[i] in rs && rs[Positions(b.sources)[rs[i]]] == rs[i];
    if AliasId(i) == AliasId(j) {
      AliasInjective(i, j);
    }
  }

  /** After finalization the projection is total: no duplicate check and no alias look-up can fail, for
      any draft and any ledger. Only the final text check is left. */
  lemma ProjectionTotal(d: Draft, es: seq<Entry>, g: Guards)
    requires Finalizable(d, es, g)
    ensures Projectable(BriefOf(d, es))
  {
    hide DraftOk, Sound, Capabilities, BriefOf, FactsCited, Positions, NoRepeats, GroundedFact, Cites, Known,
         KnownFact, Distinct, AllRefs, Resolve;
    assert FactsCited(es, d.facts);
    GroundedNumbers(d, es, g);
    hide Finalizable;
    var b := BriefOf(d, es);
    LineageKeys(d, es);
    PositionsExact(b.sources);
    forall i | 0 <= i < |b.facts|
      ensures KnownFact(b.facts[i], Positions(b.sources))
      ensures d.facts[i].claim in b.lineage && Known(b.lineage[d.facts[i].claim].refs, Positions(b.sources))
    {
      assert GroundedFact(es, b, d.facts[i], b.facts[i]);
      GroundedKnown(d, es, b, i);
    }
    forall c | c in b.lineage
      ensures Known(b.lineage[c].refs, Positions(b.sources))
    {
      var i :| 0 <= i < |d.facts| && FactClaims(d.facts)[i] == c;
    }
  }

  /** Only facts have a lineage. */
  lemma LineageKeys(d: Draft, es: seq<Entry>)
    requires FactsCited(es, d.facts)
    ensures forall c :: c in BriefOf(d, es).lineage ==> c in FactClaims(d.facts)
  {
    LineageMapExact(es, d.facts);
    hide Finalizer.Cited, LineageMap, Resolve, Distinct, AllRefs, SourcesOf, AnyStale, AnyDegraded, Capabilities,
         FirstPublished;
  }

  lemma GroundedKnown(d: Draft, es: seq<Entry>, b: Brief, i: nat)
    requires i < |d.facts| == |b.facts| && GroundedFact(es, b, d.facts[i], b.facts[i])
    requires forall ref :: ref in SourceRefs(b.sources) <==> Cites(d.facts, ref)
    ensures KnownFact(b.facts[i], Positions(b.sources))
    ensures d.facts[i].claim in b.lineage && Known(b.lineage[d.facts[i].claim].refs, Positions(b.sources))
  {
    PositionsExact(b.sources);
    var refs := FactRefs(d.facts[i]);
    forall k | 0 <= k < |refs|
      ensures refs[k] in Positions(b.sources)
    {
      assert refs[k] in refs;
      assert Cites(d.facts, refs[k]);
    }
    hide OnlyEntry, Positions, NoRepeats;
  }
}
