/** Hydrating a model's draft from the host ledger: the model names references, the host fills in
    every number, source and lineage. */
module Finalizer {
  import opened Base
  import opened TurnLedger
  import opened HostLedgers

  // ---------------------------------------------------------------- drafts and briefs

  datatype Fact =
    | Numeric(claim: string, confidence: Confidence, ref: string)
    | Qualitative(claim: string, confidence: Confidence, text: string, refs: seq<string>)

  datatype Inference = Inference(claim: string, text: string, confidence: Confidence, facts: seq<string>,
                                 caveat: string)

  datatype Status = Complete | Partial | Unavailable

  datatype Draft = Draft(title: string, status: Status, facts: seq<Fact>, inferences: seq<Inference>,
                         limitations: seq<string>)

  datatype HydratedFact =
    | NumericFact(claim: string, confidence: Confidence, fields: Fields)
    | QualitativeFact(claim: string, confidence: Confidence, text: string, refs: seq<string>)

  datatype Source = Source(ref: string, source: string, publicUrl: Option<string>, publishedAt: Option<string>)

  datatype Lineage = Lineage(observations: seq<string>, refs: seq<string>)

  datatype Brief = Brief(
    title: string, status: Status, facts: seq<HydratedFact>, inferences: seq<Inference>, limitations: seq<string>,
    asOf: Option<string>, sources: seq<Source>, lineage: map<string, Lineage>,
    staleWarning: bool, degradedWarning: bool,
    publishedAt: Option<string>, datasourceConfidence: map<string, Confidence>, factConfidence: map<string, Confidence>,
    inferenceConfidence: map<string, Confidence>)

  const PLANNING := "london-planning-activity"
  const PLANNING_LIMITATION := 
    "Planning application counts cover all use classes and are not office-only supply, floorspace, "
    + "completions, rent, vacancy, or named-submarket evidence."
  const PLANNING_UNAVAILABLE :=
    "No canonical planning-application activity is available for the requested borough and month."

  /** The references a fact rests on. */
  function FactRefs(f: Fact): seq<string> {
    match f
    case Numeric(_, _, ref) => [ref]
    case Qualitative(_, _, _, refs) => refs
  }

  function AllRefs(facts: seq<Fact>): seq<string> {
    if facts == [] then [] else AllRefs(facts[..|facts| - 1]) + FactRefs(facts[|facts| - 1])
  }

  /** First occurrences, in order. */
  function Distinct(s: seq<string>): seq<string> {
    if s == [] then []
    else
      var d, last := Distinct(s[..|s| - 1]), s[|s| - 1];
      if last in d then d else d + [last]
  }

  ghost predicate NoRepeats(s: seq<string>) {
    forall i, j :: 0 <= i < j < |s| ==> s[i] != s[j]
  }

  lemma {:induction false} DistinctExact(s: seq<string>)
    ensures NoRepeats(Distinct(s))
    ensures forall x :: x in Distinct(s) <==> x in s
  {
    if s != [] {
      DistinctExact(s[..|s| - 1]);
      assert s == s[..|s| - 1] + [s[|s| - 1]];
    }
  }

  // ---------------------------------------------------------------- resolving references

  datatype Resolution = Resolution(entry: Entry, fields: Fields, meta: Meta)

  /** The number and the publication record of a reference, if the ledger has both. */
  function Resolve(es: seq<Entry>, ref: string): Option<Resolution> {
    var h := HostOf(es);
    if !Resolves(h, ref) then None
    else
      var i, j := h.numeric[ref], h.metadata[ref];
      if i < |es| && j < |es| && es[i].numeric.Some? && es[j].metadata.Some?
      then Some(Resolution(es[i], es[i].numeric.value, es[j].metadata.value))
      else None
  }

  /** The only publication record of the ledger for a reference. */
  ghost predicate OnlyMeta(es: seq<Entry>, ref: string, m: Meta) {
    exists i :: 0 <= i < |es| && es[i].metadata == Some(m) && ref in es[i].refs
                && (forall j :: 0 <= j < |es| && ref in es[j].refs && es[j].metadata.Some? ==> j == i)
  }

  /** In a sound ledger a reference resolves as soon as both tables name it, to the only entry that has
      a number for it, under the ledger's one anchor. */
  lemma ResolveExact(es: seq<Entry>, ref: string)
    requires Sound(es)
    ensures Resolves(HostOf(es), ref) <==> Resolve(es, ref).Some?
    ensures Resolve(es, ref).Some? ==>
              var r, i := Resolve(es, ref).value, HostOf(es).numeric[ref];
              && i < |es| && r.entry == es[i] && ref in es[i].refs && es[i].numeric == Some(r.fields)
              && (forall j :: 0 <= j < |es| && ref in es[j].refs && es[j].numeric.Some? ==> j == i)
              && HostOf(es).anchor == Some(r.entry.anchor)
              && (r.meta.anchor.Some? ==> HostOf(es).anchor == r.meta.anchor)
              && OnlyMeta(es, ref, r.meta)
  {
    hide Table, NumericRefs, MetaRefs, Once;
    if Resolves(HostOf(es), ref) {
      NumericUnique(es, ref);
      MetaUnique(es, ref);
      assert AnchorsMatch(es[HostOf(es).metadata[ref]]);
    }
  }

  /** Every reference of the fact is listed once and resolves. */
  ghost predicate FactResolves(es: seq<Entry>, f: Fact) {
    NoRepeats(FactRefs(f)) && forall ref :: ref in FactRefs(f) ==> Resolve(es, ref).Some?
  }

  ghost predicate AllResolve(es: seq<Entry>, facts: seq<Fact>) {
    forall i :: 0 <= i < |facts| ==> FactResolves(es, facts[i])
  }

  /** At least one reference, and all of them resolve. */
  ghost predicate Cited(es: seq<Entry>, f: Fact) {
    FactRefs(f) != [] && FactResolves(es, f)
  }

  lemma {:induction false} AllRefsFrom(facts: seq<Fact>, ref: string)
    ensures ref in AllRefs(facts) <==> exists i :: 0 <= i < |facts| && ref in FactRefs(facts[i])
  {
    if facts != [] {
      var n := |facts| - 1;
      AllRefsFrom(facts[..n], ref);
      if ref in AllRefs(facts[..n]) {
        var i :| 0 <= i < n && ref in FactRefs(facts[..n][i]);
        assert ref in FactRefs(facts[i]);
      }
      if i :| 0 <= i < |facts| && ref in FactRefs(facts[i]) {
        assert i < n ==> ref in FactRefs(facts[..n][i]);
      }
    }
  }

  /** The first repeated reference of a fact, if any. */
  method FindRepeat(refs: seq<string>) returns (again: Option<string>)
    ensures again.None? <==> NoRepeats(refs)
  {
    var seen: set<string> := {};
    for i := 0 to |refs|
      invariant NoRepeats(refs[..i]) && forall x :: x in seen <==> x in refs[..i]
    {
      assert refs[..i + 1] == refs[..i] + [refs[i]];
      if refs[i] in seen {
        var j :| 0 <= j < i && refs[..i][j] == refs[i];
        assert refs[j] == refs[i];
        return Some(refs[i]);
      }
      seen := seen + {refs[i]};
    }
    assert refs[..|refs|] == refs;
    again := None;
  }

  /** The distinct references in order, if all of them resolve. The anchor comparison of the source can
      never fail behind `ReadHostLedger`. */
  method LookUp(es: seq<Entry>, anchor: Option<string>, refs: seq<string>) returns (r: Outcome<seq<string>>)
    requires Sound(es) && anchor == HostOf(es).anchor
    ensures r.Accepted? <==> forall ref :: ref in refs ==> Resolve(es, ref).Some?
    ensures r.Accepted? ==> r.value == Distinct(refs)
    ensures r.Rejected? ==> r.reason.UnknownRef?
  {
    hide Sound, Resolve, HostOf, Resolves;
    var resolved: seq<string> := [];
    for k := 0 to |refs|
      invariant resolved == Distinct(refs[..k]) && forall j :: 0 <= j < k ==> Resolve(es, refs[j]).Some?
    {
      var ref := refs[k];
      assert refs[..k + 1][..k] == refs[..k];
      var resolution := Resolve(es, ref);
      if resolution.None? {
        return Rejected(UnknownRef(ref));
      }
      ResolveExact(es, ref);
      if resolution.value.meta.anchor.Some? && resolution.value.meta.anchor != anchor {
        return Rejected(CrossAnchor);
      }
      if ref !in resolved {
        resolved := resolved + [ref];
      }
    }
    assert refs[..|refs|] == refs;
    r := Accepted(resolved);
  }

  /** `resolveReferences`: accepted exactly when every fact's references are listed once and known. */
  method ResolveReferences(es: seq<Entry>, anchor: Option<string>, facts: seq<Fact>) returns (r: Outcome<seq<string>>)
    requires Sound(es) && anchor == HostOf(es).anchor
    ensures r.Accepted? <==> AllResolve(es, facts)
    ensures r.Accepted? ==> r.value == Distinct(AllRefs(facts))
    ensures r.Rejected? ==> r.reason.DuplicateRef? || r.reason.UnknownRef?
  {
    hide Sound, HostOf, Resolve;
    for i := 0 to |facts|
      invariant forall j :: 0 <= j < i ==> NoRepeats(FactRefs(facts[j]))
    {
      var again := FindRepeat(FactRefs(facts[i]));
      if again.Some? {
        assert !FactResolves(es, facts[i]);
        return Rejected(DuplicateRef(again.value));
      }
    }
    AllResolveMeans(es, facts);
    r := LookUp(es, anchor, AllRefs(facts));
  }

  lemma AllResolveMeans(es: seq<Entry>, facts: seq<Fact>)
    requires forall i :: 0 <= i < |facts| ==> NoRepeats(FactRefs(facts[i]))
    ensures AllResolve(es, facts) <==> forall ref :: ref in AllRefs(facts) ==> Resolve(es, ref).Some?
  {
    hide NoRepeats, Resolve;
    if AllResolve(es, facts) {
      forall ref | ref in AllRefs(facts)
        ensures Resolve(es, ref).Some?
      {
        AllRefsFrom(facts, ref);
        var i :| 0 <= i < |facts| && ref in FactRefs(facts[i]);
        assert FactResolves(es, facts[i]);
      }
    }
    if forall ref :: ref in AllRefs(facts) ==> Resolve(es, ref).Some? {
      forall i | 0 <= i < |facts|
        ensures FactResolves(es, facts[i])
      {
        forall ref | ref in FactRefs(facts[i])
          ensures Resolve(es, ref).Some?
        {
          AllRefsFrom(facts, ref);
        }
      }
    }
  }

  // ---------------------------------------------------------------- the brief

  /** Claim ids of facts and then of inferences. */
  function Claims(d: Draft): seq<string> {
    FactClaims(d.facts) + seq(|d.inferences|, i requires 0 <= i < |d.inferences| => d.inferences[i].claim)
  }

  function FactClaims(facts: seq<Fact>): (cs: seq<string>)
    ensures |cs| == |facts| && forall i :: 0 <= i < |cs| ==> cs[i] == facts[i].claim
  {
    seq(|facts|, i requires 0 <= i < |facts| => facts[i].claim)
  }

  ghost predicate KnownFacts(d: Draft, x: Inference) {
    forall f :: f in x.facts ==> f in FactClaims(d.facts)
  }

  /** The semantic checks of `parseDraft`. */
  ghost predicate DraftOk(d: Draft) {
    && |d.facts| <= 12 && |d.inferences| <= 8
    && NoRepeats(Claims(d))
    && (forall i :: 0 <= i < |d.inferences| ==> KnownFacts(d, d.inferences[i]))
  }

  method CheckDraft(d: Draft) returns (refusal: Option<Reject>)
    ensures refusal.None? <==> DraftOk(d)
    ensures refusal == Some(FactLimit) <==> |d.facts| > 12
    ensures refusal == Some(InferenceLimit) <==> |d.facts| <= 12 && |d.inferences| > 8
  {
    if |d.facts| > 12 {
      return Some(FactLimit);
    }
    if |d.inferences| > 8 {
      return Some(InferenceLimit);
    }
    var again := FindRepeat(Claims(d));
    if again.Some? {
      return Some(DuplicateClaim(again.value));
    }
    for i := 0 to |d.inferences|
      invariant forall j :: 0 <= j < i ==> KnownFacts(d, d.inferences[j])
    {
      var facts := d.inferences[i].facts;
      for k := 0 to |facts|
        invariant forall j :: 0 <= j < k ==> facts[j] in FactClaims(d.facts)
      {
        if facts[k] !in FactClaims(d.facts) {
          assert !KnownFacts(d, d.inferences[i]);
          return Some(UnknownFact(facts[k]));
        }
      }
    }
    refusal := None;
  }

  function Hydrate(es: seq<Entry>, f: Fact): HydratedFact
    requires Cited(es, f)
  {
    match f
    case Numeric(claim, confidence, ref) =>
      assert ref in FactRefs(f); NumericFact(claim, confidence, Resolve(es, ref).value.fields)
    case Qualitative(claim, confidence, text, refs) => QualitativeFact(claim, confidence, text, refs)
  }

  /** The observations behind a list of references. */
  function Observations(es: seq<Entry>, refs: seq<string>): seq<string>
    requires forall ref :: ref in refs ==> Resolve(es, ref).Some?
  {
    if refs == [] then []
    else Observations(es, refs[..|refs| - 1]) + Resolve(es, refs[|refs| - 1]).value.entry.observations
  }

  function LineageOf(es: seq<Entry>, f: Fact): Lineage
    requires Cited(es, f)
  {
    Lineage(Distinct(Observations(es, FactRefs(f))), FactRefs(f))
  }

  function SourceOf(es: seq<Entry>, ref: string): Source
    requires Resolve(es, ref).Some?
  {
    var m := Resolve(es, ref).value.meta;
    Source(ref, m.source, m.publicUrl, m.publishedAt)
  }

  /** Claim by claim: lineage, the confidence of the first source, and the draft's own confidence. */
  function LineageMap(es: seq<Entry>, facts: seq<Fact>): map<string, Lineage>
    requires forall i :: 0 <= i < |facts| ==> Cited(es, facts[i])
  {
    if facts == [] then map[]
    else LineageMap(es, facts[..|facts| - 1])[facts[|facts| - 1].claim := LineageOf(es, facts[|facts| - 1])]
  }

  function SourceConfidence(es: seq<Entry>, f: Fact): Confidence
    requires Cited(es, f)
  {
    assert FactRefs(f)[0] in FactRefs(f);
    Resolve(es, FactRefs(f)[0]).value.meta.confidence
  }

  function SourceConfidences(es: seq<Entry>, facts: seq<Fact>): map<string, Confidence>
    requires forall i :: 0 <= i < |facts| ==> Cited(es, facts[i])
  {
    if facts == [] then map[]
    else
      var front, last := facts[..|facts| - 1], facts[|facts| - 1];
      SourceConfidences(es, front)[last.claim := SourceConfidence(es, last)]
  }

  function FactConfidences(facts: seq<Fact>): map<string, Confidence> {
    if facts == [] then map[]
    else FactConfidences(facts[..|facts| - 1])[facts[|facts| - 1].claim := facts[|facts| - 1].confidence]
  }

  function InferenceConfidences(xs: seq<Inference>): map<string, Confidence> {
    if xs == [] then map[] else InferenceConfidences(xs[..|xs| - 1])[xs[|xs| - 1].claim := xs[|xs| - 1].confidence]
  }

  function Hydrated(es: seq<Entry>, facts: seq<Fact>): (hs: seq<HydratedFact>)
    requires forall i :: 0 <= i < |facts| ==> Cited(es, facts[i])
    ensures |hs| == |facts| && forall i :: 0 <= i < |facts| ==> hs[i] == Hydrate(es, facts[i])
  {
    seq(|facts|, i requires 0 <= i < |facts| => Hydrate(es, facts[i]))
  }

  function SourcesOf(es: seq<Entry>, refs: seq<string>): (ss: seq<Source>)
    requires forall ref :: ref in refs ==> Resolve(es, ref).Some?
    ensures |ss| == |refs| && forall i :: 0 <= i < |refs| ==> refs[i] in refs && ss[i] == SourceOf(es, refs[i])
  {
    seq(|refs|, i requires 0 <= i < |refs| => assert refs[i] in refs; SourceOf(es, refs[i]))
  }

  /** `sources.find((source) => source.published_at !== null)` */
  function FirstPublished(ss: seq<Source>): Option<string> {
    if ss == [] then None else if ss[0].publishedAt.Some? then ss[0].publishedAt else FirstPublished(ss[1..])
  }

  predicate AnyStale(es: seq<Entry>, refs: seq<string>)
    requires forall ref :: ref in refs ==> Resolve(es, ref).Some?
  {
    exists i :: 0 <= i < |refs| && refs[i] in refs && Resolve(es, refs[i]).value.entry.freshness.stale
  }

  predicate AnyDegraded(es: seq<Entry>, refs: seq<string>)
    requires forall ref :: ref in refs ==> Resolve(es, ref).Some?
  {
    exists i :: 0 <= i < |refs| && refs[i] in refs && Resolve(es, refs[i]).value.entry.freshness.degraded
  }

  /** The capabilities behind the cited numbers. */
  function Capabilities(es: seq<Entry>, refs: seq<string>): set<string>
    requires forall ref :: ref in refs ==> Resolve(es, ref).Some?
  {
    set i | 0 <= i < |refs| && refs[i] in refs && Resolve(es, refs[i]).value.entry.capability.Some?
      :: Resolve(es, refs[i]).value.entry.capability.value
  }

  /** A planning query that found nothing. */
  predicate EmptyPlanning(d: Draft, es: seq<Entry>) {
    && d.facts == []
    && exists i :: 0 <= i < |es| && es[i].kind.QueryEntry? && es[i].capability == Some(PLANNING)
                   && es[i].observations == []
  }

  /** The guards on free text, which this model leaves abstract: the numeric guard, and the claim guards
      for the capabilities a draft cites. */
  datatype Guards = Guards(text: Draft -> bool, claims: (Draft, set<string>) -> bool)

  ghost predicate FactsCited(es: seq<Entry>, facts: seq<Fact>) {
    forall i :: 0 <= i < |facts| ==> Cited(es, facts[i])
  }

  lemma RefsResolve(es: seq<Entry>, facts: seq<Fact>)
    requires AllResolve(es, facts)
    ensures forall ref :: ref in Distinct(AllRefs(facts)) ==> Resolve(es, ref).Some?
  {
    hide Resolve;
    DistinctExact(AllRefs(facts));
    forall ref | ref in Distinct(AllRefs(facts))
      ensures Resolve(es, ref).Some?
    {
      AllRefsFrom(facts, ref);
      var i :| 0 <= i < |facts| && ref in FactRefs(facts[i]);
      assert FactResolves(es, facts[i]);
    }
  }

  lemma CitedRefsResolve(es: seq<Entry>, facts: seq<Fact>)
    requires FactsCited(es, facts)
    ensures AllResolve(es, facts)
    ensures forall ref :: ref in Distinct(AllRefs(facts)) ==> Resolve(es, ref).Some?
  {
    hide FactResolves;
    assert forall i :: 0 <= i < |facts| ==> Cited(es, facts[i]);
    RefsResolve(es, facts);
  }

  /** Exactly the drafts that are finalized. */
  ghost predicate Finalizable(d: Draft, es: seq<Entry>, g: Guards) {
    && DraftOk(d) && g.text(d) && Sound(es) && FactsCited(es, d.facts)
    && (CitedRefsResolve(es, d.facts);
        g.claims(d, Capabilities(es, Distinct(AllRefs(d.facts)))))
  }

  /** The brief of a finalizable draft: text from the draft, everything else from the ledger. */
  ghost function BriefOf(d: Draft, es: seq<Entry>): Brief
    requires FactsCited(es, d.facts)
  {
    CitedRefsResolve(es, d.facts);
    Assemble(d, es, HostOf(es).anchor, Distinct(AllRefs(d.facts)), FilledOf(es, d.facts))
  }

  /** The four records that `finalizeBrief` fills while it maps the facts. */
  datatype Filled = Filled(
    facts: seq<HydratedFact>, lineage: map<string, Lineage>, sourceConfidence: map<string, Confidence>,
    factConfidence: map<string, Confidence>)

  ghost function FilledOf(es: seq<Entry>, facts: seq<Fact>): Filled
    requires FactsCited(es, facts)
  {
    Filled(Hydrated(es, facts), LineageMap(es, facts), SourceConfidences(es, facts), FactConfidences(facts))
  }

  lemma FilledStep(es: seq<Entry>, facts: seq<Fact>)
    requires facts != [] && FactsCited(es, facts)
    ensures var front, last := facts[..|facts| - 1], facts[|facts| - 1];
            && FactsCited(es, front) && Cited(es, last)
            && var f := FilledOf(es, front);
               FilledOf(es, facts) == Filled(f.facts + [Hydrate(es, last)],
                                             f.lineage[last.claim := LineageOf(es, last)],
                                             f.sourceConfidence[last.claim := SourceConfidence(es, last)],
                                             f.factConfidence[last.claim := last.confidence])
  {
    hide Cited, Hydrate;
  }

  /** A fact without any reference is refused. */
  method FillFacts(es: seq<Entry>, facts: seq<Fact>) returns (r: Outcome<Filled>)
    requires AllResolve(es, facts)
    ensures r.Accepted? <==> FactsCited(es, facts)
    ensures r.Accepted? ==> r.value == FilledOf(es, facts)
    ensures r.Rejected? ==> r.reason.UnresolvedRef?
  {
    hide FactResolves, Resolve, Hydrate, LineageOf, SourceConfidence;
    var filled := Filled([], map[], map[], map[]);
    for i := 0 to |facts|
      invariant FactsCited(es, facts[..i]) && filled == FilledOf(es, facts[..i])
    {
      var f := facts[i];
      assert FactResolves(es, f);
      if FactRefs(f) == [] {
        assert !Cited(es, facts[i]);
        return Rejected(UnresolvedRef);
      }
      assert facts[..i + 1][..i] == facts[..i] && facts[..i + 1][i] == f;
      FilledStep(es, facts[..i + 1]);
      filled := Filled(filled.facts + [Hydrate(es, f)], filled.lineage[f.claim := LineageOf(es, f)],
                       filled.sourceConfidence[f.claim := SourceConfidence(es, f)],
                       filled.factConfidence[f.claim := f.confidence]);
    }
    assert facts[..|facts|] == facts;
    r := Accepted(filled);
  }

  /** `finalizeBrief`: accepted exactly for finalizable drafts. */
  method FinalizeBrief(d: Draft, es: seq<Entry>, g: Guards) returns (r: Outcome<Brief>)
    ensures r.Accepted? <==> Finalizable(d, es, g)
    ensures r.Accepted? ==> r.value == BriefOf(d, es)
  {
    hide DraftOk, Sound, Resolve, HostOf, FactResolves;
    var refusal := CheckDraft(d);
    if refusal.Some? {
      return Rejected(refusal.value);
    }
    if !g.text(d) {
      return Rejected(NumericGuard);
    }
    var host := ReadHostLedger(es);
    if host.Rejected? {
      return Rejected(host.reason);
    }
    if host.value.anchor.None? && d.facts != [] {
      NothingResolves(es, d.facts);
      return Rejected(UnresolvedRef);
    }
    var resolved := ResolveReferences(es, host.value.anchor, d.facts);
    if resolved.Rejected? {
      if FactsCited(es, d.facts) {
        CitedRefsResolve(es, d.facts);
      }
      return Rejected(resolved.reason);
    }
    var refs := resolved.value;
    RefsResolve(es, d.facts);
    if !g.claims(d, Capabilities(es, refs)) {
      return Rejected(ClaimGuard);
    }
    var filled := FillFacts(es, d.facts);
    if filled.Rejected? {
      return Rejected(filled.reason);
    }
    r := Accepted(Assemble(d, es, host.value.anchor, refs, filled.value));
  }

  function Assemble(d: Draft, es: seq<Entry>, anchor: Option<string>, refs: seq<string>, f: Filled): Brief
    requires forall ref :: ref in refs ==> Resolve(es, ref).Some?
  {
    var sources := SourcesOf(es, refs);
    var stale, degraded := AnyStale(es, refs), AnyDegraded(es, refs);
    Brief(d.title,
          if EmptyPlanning(d, es) then Unavailable else if d.status.Complete? && (stale || degraded) then Partial
          else d.status,
          f.facts, d.inferences,
          if EmptyPlanning(d, es) then [PLANNING_UNAVAILABLE]
          else if PLANNING in Capabilities(es, refs) then d.limitations + [PLANNING_LIMITATION]
          else d.limitations,
          anchor, sources, f.lineage, stale, degraded, FirstPublished(sources),
          f.sourceConfidence, f.factConfidence, InferenceConfidences(d.inferences))
  }

  /** An empty ledger resolves nothing. */
  lemma NothingResolves(es: seq<Entry>, facts: seq<Fact>)
    requires HostOf(es).anchor.None? && facts != []
    ensures !FactsCited(es, facts)
  {
    var refs := FactRefs(facts[0]);
    if refs != [] {
      assert refs[0] in refs && Resolve(es, refs[0]).None?;
    }
    assert !Cited(es, facts[0]);
  }

  // ---------------------------------------------------------------- grounded output

  lemma {:induction false} LineageMapExact(es: seq<Entry>, facts: seq<Fact>)
    requires FactsCited(es, facts)
    ensures forall c :: c in LineageMap(es, facts) <==> c in FactClaims(facts)
    ensures NoRepeats(FactClaims(facts)) ==>
              forall i :: 0 <= i < |facts| ==>
                facts[i].claim in LineageMap(es, facts)
                && LineageMap(es, facts)[facts[i].claim] == LineageOf(es, facts[i])
  {
    hide Cited, LineageOf;
    if facts != [] {
      var n := |facts| - 1;
      var front := facts[..n];
      assert FactClaims(facts) == FactClaims(front) + [facts[n].claim];
      LineageMapExact(es, front);
      var lines, before := LineageMap(es, facts), LineageMap(es, front);
      assert lines == before[facts[n].claim := LineageOf(es, facts[n])];
      hide LineageMap;
      if NoRepeats(FactClaims(facts)) {
        assert NoRepeats(FactClaims(front)) && facts[n].claim !in FactClaims(front) by {
          var cs := FactClaims(facts);
          assert forall i :: 0 <= i < n ==> FactClaims(front)[i] == cs[i] && cs[i] != cs[n];
        }
        forall i | 0 <= i < |facts|
          ensures facts[i].claim in lines && lines[facts[i].claim] == LineageOf(es, facts[i])
        {
          if i < n {
            assert FactClaims(front)[i] == facts[i].claim && front[i] == facts[i];
          }
        }
      }
    }
  }

  lemma {:induction false} ObservationsFrom(es: seq<Entry>, refs: seq<string>, o: string)
    requires forall ref :: ref in refs ==> Resolve(es, ref).Some?
    ensures o in Observations(es, refs) <==>
              exists k :: 0 <= k < |refs| && refs[k] in refs && o in Resolve(es, refs[k]).value.entry.observations
  {
    hide Resolve;
    if refs != [] {
      var n := |refs| - 1;
      var front := refs[..n];
      ObservationsFrom(es, front, o);
      if o in Observations(es, front) {
        var k :| 0 <= k < |front| && front[k] in front && o in Resolve(es, front[k]).value.entry.observations;
        assert refs[k] in refs;
      }
      if k :| 0 <= k < |refs| && refs[k] in refs && o in Resolve(es, refs[k]).value.entry.observations {
        if k < n {
          assert front[k] in front;
        }
      }
      if o in Resolve(es, refs[n]).value.entry.observations {
        assert refs[n] in refs;
      }
    }
  }

  /** What is behind one reference: the only entry of the ledger with a number for it. */
  ghost predicate OnlyEntry(es: seq<Entry>, ref: string, e: Entry) {
    exists i :: 0 <= i < |es| && es[i] == e && ref in e.refs && e.numeric.Some?
                && (forall j :: 0 <= j < |es| && ref in es[j].refs && es[j].numeric.Some? ==> j == i)
  }

  /** Fact by fact, what an accepted brief says. */
  ghost predicate GroundedFact(es: seq<Entry>, b: Brief, f: Fact, h: HydratedFact) {
    && h.claim == f.claim && h.confidence == f.confidence
    && f.claim in b.lineage
    && var line := b.lineage[f.claim];
       && line.refs == FactRefs(f) && line.refs != []
       && NoRepeats(line.observations)
       // every citation stands on one ledger entry, and the lineage names exactly their observations
       && (forall ref :: ref in line.refs ==> exists e :: OnlyEntry(es, ref, e))
       && (forall o :: o in line.observations <==>
             exists ref, e :: ref in line.refs && OnlyEntry(es, ref, e) && o in e.observations)
       && (match f
           case Numeric(_, _, ref) => h.NumericFact? && exists e :: OnlyEntry(es, ref, e) && e.numeric == Some(h.fields)
           case Qualitative(_, _, text, refs) => h == QualitativeFact(f.claim, f.confidence, text, refs))
  }

  lemma OnlyEntryIs(es: seq<Entry>, ref: string)
    requires Sound(es) && Resolve(es, ref).Some?
    ensures OnlyEntry(es, ref, Resolve(es, ref).value.entry)
    ensures Resolve(es, ref).value.entry.numeric == Some(Resolve(es, ref).value.fields)
    ensures forall e :: OnlyEntry(es, ref, e) ==> e == Resolve(es, ref).value.entry
  {
    ResolveExact(es, ref);
    hide Resolve, Sound;
    var i := HostOf(es).numeric[ref];
    assert es[i] == Resolve(es, ref).value.entry;
  }

  lemma LineageGrounded(es: seq<Entry>, f: Fact, o: string)
    requires Sound(es) && Cited(es, f)
    ensures o in LineageOf(es, f).observations <==>
              exists ref, e :: ref in FactRefs(f) && OnlyEntry(es, ref, e) && o in e.observations
  {
    hide Sound, OnlyEntry, Distinct, Observations;
    var refs := FactRefs(f);
    ObservationsFrom(es, refs, o);
    DistinctExact(Observations(es, refs));
    forall ref | ref in refs
      ensures OnlyEntry(es, ref, Resolve(es, ref).value.entry)
              && forall e :: OnlyEntry(es, ref, e) ==> e == Resolve(es, ref).value.entry
    {
      OnlyEntryIs(es, ref);
    }
    hide Resolve;
    if o in Observations(es, refs) {
      var k :| 0 <= k < |refs| && refs[k] in refs && o in Resolve(es, refs[k]).value.entry.observations;
      assert OnlyEntry(es, refs[k], Resolve(es, refs[k]).value.entry);
    }
    if ref, e :| ref in refs && OnlyEntry(es, ref, e) && o in e.observations {
      var k :| 0 <= k < |refs| && refs[k] == ref;
      assert refs[k] in refs && o in Resolve(es, refs[k]).value.entry.observations;
    }
  }

  lemma FactGrounded(es: seq<Entry>, b: Brief, f: Fact)
    requires Sound(es) && Cited(es, f) && f.claim in b.lineage && b.lineage[f.claim] == LineageOf(es, f)
    ensures GroundedFact(es, b, f, Hydrate(es, f))
  {
    DistinctExact(Observations(es, FactRefs(f)));
    forall ref | ref in FactRefs(f)
      ensures OnlyEntry(es, ref, Resolve(es, ref).value.entry)
              && Resolve(es, ref).value.entry.numeric == Some(Resolve(es, ref).value.fields)
    {
      OnlyEntryIs(es, ref);
    }
    forall o
      ensures o in LineageOf(es, f).observations <==>
                exists ref, e :: ref in FactRefs(f) && OnlyEntry(es, ref, e) && o in e.observations
    {
      LineageGrounded(es, f, o);
    }
    hide Resolve, Sound, OnlyEntry, Distinct, Observations;
    if f.Numeric? {
      assert f.ref in FactRefs(f);
    }
  }

  /** Grounded numbers: for every draft and every ledger, an accepted brief has one anchor, the anchor of
      every ledger entry; each fact is cited; each number is, in all six fields, that of the only entry
      that has a number for its citation; lineage names exactly the observations of the cited entries;
      and the sources are exactly the cited references, each once. */
  lemma GroundedNumbers(d: Draft, es: seq<Entry>, g: Guards)
    requires Finalizable(d, es, g)
    ensures var b := BriefOf(d, es);
            && (forall i :: 0 <= i < |es| ==> b.asOf == Some(es[i].anchor))
            && |b.facts| == |d.facts|
            && (forall i :: 0 <= i < |d.facts| ==> GroundedFact(es, b, d.facts[i], b.facts[i]))
            && NoRepeats(SourceRefs(b.sources))
            && (forall ref :: ref in SourceRefs(b.sources) <==> Cites(d.facts, ref))
            && (forall k :: 0 <= k < |b.sources| ==> GroundedSource(es, b.sources[k]))
  {
    hide GroundedSource, DraftOk, Resolve, GroundedFact, LineageOf, Cited, Hydrate, LineageMap, Distinct, AllRefs,
         NoRepeats, Cites;
    var b := BriefOf(d, es);
    AnchorShared(es);
    FactClaimsDistinct(d);
    LineageMapExact(es, d.facts);
    SourcesExact(d, es);
    SourcesGrounded(d, es);
    hide Sound, HostOf, Capabilities, SourcesOf, AnyStale, AnyDegraded, FirstPublished;
    forall i | 0 <= i < |d.facts|
      ensures GroundedFact(es, b, d.facts[i], b.facts[i])
    {
      assert Cited(es, d.facts[i]);
      FactGrounded(es, b, d.facts[i]);
    }
  }

  lemma FactClaimsDistinct(d: Draft)
    requires DraftOk(d)
    ensures NoRepeats(FactClaims(d.facts))
  {
    assert forall i :: 0 <= i < |d.facts| ==> Claims(d)[i] == FactClaims(d.facts)[i];
  }

  lemma AnchorShared(es: seq<Entry>)
    requires Sound(es)
    ensures forall i :: 0 <= i < |es| ==> HostOf(es).anchor == Some(es[i].anchor)
  {
    hide Table, NumericRefs, MetaRefs, Once;
  }

  ghost predicate Cites(facts: seq<Fact>, ref: string) {
    exists i :: 0 <= i < |facts| && ref in FactRefs(facts[i])
  }

  function SourceRefs(ss: seq<Source>): (rs: seq<string>)
    ensures |rs| == |ss| && forall i :: 0 <= i < |rs| ==> rs[i] == ss[i].ref
  {
    seq(|ss|, i requires 0 <= i < |ss| => ss[i].ref)
  }

  /** A source repeats the only publication record of its reference. */
  ghost predicate GroundedSource(es: seq<Entry>, s: Source) {
    exists m :: OnlyMeta(es, s.ref, m) && s == Source(s.ref, m.source, m.publicUrl, m.publishedAt)
  }

  lemma SourcesGrounded(d: Draft, es: seq<Entry>)
    requires Sound(es) && FactsCited(es, d.facts)
    ensures forall k :: 0 <= k < |BriefOf(d, es).sources| ==> GroundedSource(es, BriefOf(d, es).sources[k])
  {
    hide Sound, Resolve, Distinct, AllRefs, Cited, LineageMap, AnyStale, AnyDegraded, Capabilities, FirstPublished,
         OnlyMeta;
    CitedRefsResolve(es, d.facts);
    var refs, ss := Distinct(AllRefs(d.facts)), BriefOf(d, es).sources;
    forall k | 0 <= k < |ss|
      ensures GroundedSource(es, ss[k])
    {
      assert refs[k] in refs && ss[k] == SourceOf(es, refs[k]);
      ResolveExact(es, refs[k]);
      assert OnlyMeta(es, ss[k].ref, Resolve(es, refs[k]).value.meta);
    }
  }

  /** No number the draft cites is stale or degraded. */
  ghost predicate AllFresh(d: Draft, es: seq<Entry>) {
    forall ref :: Cites(d.facts, ref) ==>
      Resolve(es, ref).Some? && !Resolve(es, ref).value.entry.freshness.stale
      && !Resolve(es, ref).value.entry.freshness.degraded
  }

  /** A query of the planning capability that found nothing. */
  ghost predicate EmptyPlanningQuery(es: seq<Entry>) {
    exists i :: 0 <= i < |es| && es[i].kind == QueryEntry && es[i].capability == Some("london-planning-activity")
                && es[i].observations == []
  }

  /** A brief with facts is called complete exactly when the draft said so and no number it cites is stale or degraded;
      one without facts keeps the draft's status, unless a planning query found nothing, which makes it unavailable;
      and a brief never upgrades the draft's own status. */
  lemma StatusIsHonest(d: Draft, es: seq<Entry>, g: Guards)
    requires Finalizable(d, es, g)
    ensures d.facts != [] ==> (BriefOf(d, es).status.Complete? <==> d.status.Complete? && AllFresh(d, es))
    ensures d.facts == [] ==> BriefOf(d, es).status == if EmptyPlanningQuery(es) then Unavailable else d.status
    ensures d.status.Unavailable? ==> BriefOf(d, es).status.Unavailable?
    ensures d.status.Partial? ==> !BriefOf(d, es).status.Complete?
  {
    hide DraftOk, Sound, Resolve, LineageMap, Capabilities, FirstPublished, Cites, SourcesOf, Distinct, AllRefs,
         AllFresh, AnyStale, AnyDegraded;
    CitedRefsResolve(es, d.facts);
    FreshExactly(d, es, Distinct(AllRefs(d.facts)));
    if d.facts == [] {
      NothingCited(d.facts);
      NeverStale(es);
    }
  }

  lemma NothingCited(facts: seq<Fact>)
    requires facts == []
    ensures Distinct(AllRefs(facts)) == []
  {
  }

  lemma NeverStale(es: seq<Entry>)
    ensures !AnyStale(es, []) && !AnyDegraded(es, [])
  {
  }

  lemma FreshExactly(d: Draft, es: seq<Entry>, refs: seq<string>)
    requires refs == Distinct(AllRefs(d.facts)) && forall ref :: ref in refs ==> Resolve(es, ref).Some?
    ensures AllFresh(d, es) <==> !AnyStale(es, refs) && !AnyDegraded(es, refs)
  {
    hide Resolve, Distinct, AllRefs, Cites;
    DistinctExact(AllRefs(d.facts));
    forall ref
      ensures ref in refs <==> Cites(d.facts, ref)
    {
      AllRefsFrom(d.facts, ref);
      CitesMeans(d.facts, ref);
    }
    if AllFresh(d, es) {
      assert forall k :: 0 <= k < |refs| ==> refs[k] in refs && Cites(d.facts, refs[k]);
    } else {
      var ref :| Cites(d.facts, ref)
                 && (Resolve(es, ref).value.entry.freshness.stale || Resolve(es, ref).value.entry.freshness.degraded);
      var k :| 0 <= k < |refs| && refs[k] == ref;
      assert refs[k] in refs;
    }
  }

  lemma CitesMeans(facts: seq<Fact>, ref: string)
    ensures Cites(facts, ref) <==> exists i :: 0 <= i < |facts| && ref in FactRefs(facts[i])
  {
  }

  /** The sources are the cited references, in the order of their first citation. */
  lemma SourcesExact(d: Draft, es: seq<Entry>)
    requires FactsCited(es, d.facts)
    ensures var rs := SourceRefs(BriefOf(d, es).sources);
            rs == Distinct(AllRefs(d.facts)) && NoRepeats(rs) && forall ref :: ref in rs <==> Cites(d.facts, ref)
  {
    CitedRefsResolve(es, d.facts);
    DistinctExact(AllRefs(d.facts));
    forall ref
      ensures ref in Distinct(AllRefs(d.facts)) <==> Cites(d.facts, ref)
    {
      AllRefsFrom(d.facts, ref);
    }
    hide Resolve, Distinct, AllRefs, Cited, Cites, LineageMap, NoRepeats, AnyStale, AnyDegraded, Capabilities,
         FirstPublished;
    assert SourceRefs(BriefOf(d, es).sources) == Distinct(AllRefs(d.facts));
  }

  /** With the ledger that a turn's own tool calls recorded, the entry behind every number is a query
      entry, and every publication record is about a reference that a query of the same anchor returned. */
  lemma GroundedInQueries(tools: seq<Tool>, ref: string)
    ensures forall e :: OnlyEntry(Recorded(tools), ref, e) ==> e.kind.QueryEntry?
    ensures forall m :: OnlyMeta(Recorded(tools), ref, m) ==> BackedByQuery(Recorded(tools), ref, m)
  {
    RecordedOk(tools);
    var es := Recorded(tools);
    forall e | OnlyEntry(es, ref, e)
      ensures e.kind.QueryEntry?
    {
      var i :| 0 <= i < |es| && es[i] == e && ref in e.refs && e.numeric.Some?;
      assert EntryOk(es, es[i]);
    }
    forall m | OnlyMeta(es, ref, m)
      ensures BackedByQuery(es, ref, m)
    {
      var i :| 0 <= i < |es| && es[i].metadata == Some(m) && ref in es[i].refs;
      MetaBacked(es, ref, m, i);
    }
  }

  /** The publication record belongs to a citation whose anchor and capability are those of a query entry
      that returned the same reference. */
  ghost predicate BackedByQuery(es: seq<Entry>, ref: string, m: Meta) {
    exists i, q :: 0 <= i < |es| && q in es && es[i].metadata == Some(m) && es[i].kind.CitationEntry?
                   && Backs(q, ref, None)
                   && q.anchor == es[i].anchor && q.capability == es[i].capability
  }

  lemma MetaBacked(es: seq<Entry>, ref: string, m: Meta, i: nat)
    requires LedgerOk(es) && i < |es| && es[i].metadata == Some(m) && ref in es[i].refs
    ensures BackedByQuery(es, ref, m)
  {
    assert EntryOk(es, es[i]);
    assert es[i].refs == [ref];
    var q :| q in es && Backs(q, es[i].refs[0], None) && q.anchor == es[i].anchor && q.capability == es[i].capability;
    assert Backs(q, ref, None);
  }

  // ---------------------------------------------------------------- from the tools to the brief

  /** A record that a query of the turn returned, under the brief's anchor and with the reference among its own. */
  ghost predicate ReturnedNumber(tools: seq<Tool>, anchor: Option<string>, ref: string, f: Fields) {
    exists t, i :: 0 <= t < |tools| && tools[t].Queried? && 0 <= i < |tools[t].records|
                   && tools[t].anchor == anchor && ref in tools[t].records[i].refs
                   && tools[t].records[i].numeric.Some? && SameNumber(tools[t].records[i].numeric.value, f)
  }

  /** A citation that a look-up of the turn returned. */
  ghost predicate ReturnedSource(tools: seq<Tool>, s: Source) {
    exists t, i :: 0 <= t < |tools| && tools[t].Cited? && 0 <= i < |tools[t].citations|
                   && SameSource(tools[t].citations[i], s)
  }

  predicate SameSource(c: RawCitation, s: Source) {
    c.ref == Some(s.ref) && c.publisher == Some(s.source) && c.publicUrl == s.publicUrl
    && c.publishedAt == s.publishedAt
  }

  lemma NumberReturned(tools: seq<Tool>, e: Entry, ref: string)
    requires Told(tools, e) && e.numeric.Some? && ref in e.refs
    ensures ReturnedNumber(tools, Some(e.anchor), ref, e.numeric.value)
  {
    var t, i :| 0 <= t < |tools| && tools[t].Queried? && 0 <= i < |tools[t].records|
                && TellsRecord(e, tools[t], tools[t].records[i]);
    assert SameNumber(tools[t].records[i].numeric.value, e.numeric.value);
  }

  lemma SourceReturned(tools: seq<Tool>, e: Entry, s: Source)
    requires Told(tools, e) && e.metadata.Some? && s.ref in e.refs
    requires var m := e.metadata.value; s == Source(s.ref, m.source, m.publicUrl, m.publishedAt)
    ensures ReturnedSource(tools, s)
  {
    var t, i :| 0 <= t < |tools| && tools[t].Cited? && 0 <= i < |tools[t].citations|
                && TellsCitation(e, tools[t].citations[i]);
    assert SameSource(tools[t].citations[i], s);
  }

  /** From end to end: with the ledger that the turn's own calls recorded, every number of an accepted brief is,
      field by field, that of a record which a query of the turn returned under the brief's anchor for the cited
      reference; and every source is, field by field, a citation that a look-up of the turn returned. */
  lemma BriefTellsTools(tools: seq<Tool>, d: Draft, g: Guards, i: nat, k: nat)
    requires Finalizable(d, Recorded(tools), g)
    ensures var b := BriefOf(d, Recorded(tools));
            && (i < |d.facts| && d.facts[i].Numeric? ==>
                  i < |b.facts| && b.facts[i].NumericFact?
                  && ReturnedNumber(tools, b.asOf, d.facts[i].ref, b.facts[i].fields))
            && (k < |b.sources| ==> ReturnedSource(tools, b.sources[k]))
  {
    var es, b := Recorded(tools), BriefOf(d, Recorded(tools));
    GroundedNumbers(d, es, g);
    hide Finalizable, BriefOf, ReturnedNumber, ReturnedSource, Told;
    if i < |d.facts| && d.facts[i].Numeric? {
      assert GroundedFact(es, b, d.facts[i], b.facts[i]);
      NumberOfFact(es, b, d.facts[i], b.facts[i], tools);
    }
    if k < |b.sources| {
      assert GroundedSource(es, b.sources[k]);
      var m :| OnlyMeta(es, b.sources[k].ref, m)
               && b.sources[k] == Source(b.sources[k].ref, m.source, m.publicUrl, m.publishedAt);
      var j :| 0 <= j < |es| && es[j].metadata == Some(m) && b.sources[k].ref in es[j].refs;
      RecordedTold(tools, j);
      SourceReturned(tools, es[j], b.sources[k]);
    }
  }

  lemma NumberOfFact(es: seq<Entry>, b: Brief, f: Fact, h: HydratedFact, tools: seq<Tool>)
    requires es == Recorded(tools) && GroundedFact(es, b, f, h) && f.Numeric?
    requires forall i :: 0 <= i < |es| ==> b.asOf == Some(es[i].anchor)
    ensures h.NumericFact? && ReturnedNumber(tools, b.asOf, f.ref, h.fields)
  {
    hide ReturnedNumber, Told;
    var e :| OnlyEntry(es, f.ref, e) && e.numeric == Some(h.fields);
    var j :| 0 <= j < |es| && es[j] == e && f.ref in e.refs;
    RecordedTold(tools, j);
    NumberReturned(tools, e, f.ref);
  }

  /** What an accepted draft went through: at most twelve facts and eight inferences, claim ids that differ, inferences
      that rest on facts of the same draft, and both guards, the second of them for exactly the capabilities behind the
      cited numbers. */
  lemma AcceptedIsGuarded(d: Draft, es: seq<Entry>, g: Guards)
    returns (capabilities: set<string>)
    requires Finalizable(d, es, g)
    ensures |d.facts| <= 12 && |d.inferences| <= 8
    ensures forall i, j :: 0 <= i < j < |d.facts| ==> d.facts[i].claim != d.facts[j].claim
    ensures forall i, j :: 0 <= i < j < |d.inferences| ==> d.inferences[i].claim != d.inferences[j].claim
    ensures forall i, j :: 0 <= i < |d.facts| && 0 <= j < |d.inferences| ==> d.facts[i].claim != d.inferences[j].claim
    ensures forall j, c :: 0 <= j < |d.inferences| && c in d.inferences[j].facts ==>
              exists i :: 0 <= i < |d.facts| && d.facts[i].claim == c
    ensures g.text(d) && g.claims(d, capabilities)
    ensures forall c :: c in capabilities <==> exists ref :: Cites(d.facts, ref) && HasCapability(es, ref, c)
  {
    ClaimsApart(d);
    hide DraftOk, Sound, Resolve, Distinct, AllRefs, Cites;
    CitedRefsResolve(es, d.facts);
    var refs := Distinct(AllRefs(d.facts));
    RefsAreCited(d.facts, refs);
    capabilities := Capabilities(es, refs);
    CapabilitiesExact(es, refs);
  }

  ghost predicate HasCapability(es: seq<Entry>, ref: string, c: string) {
    Resolve(es, ref).Some? && Resolve(es, ref).value.entry.capability == Some(c)
  }

  lemma ClaimsApart(d: Draft)
    requires DraftOk(d)
    ensures forall i, j :: 0 <= i < j < |d.facts| ==> d.facts[i].claim != d.facts[j].claim
    ensures forall i, j :: 0 <= i < j < |d.inferences| ==> d.inferences[i].claim != d.inferences[j].claim
    ensures forall i, j :: 0 <= i < |d.facts| && 0 <= j < |d.inferences| ==> d.facts[i].claim != d.inferences[j].claim
    ensures forall j, c :: 0 <= j < |d.inferences| && c in d.inferences[j].facts ==>
              exists i :: 0 <= i < |d.facts| && d.facts[i].claim == c
    ensures |d.facts| <= 12 && |d.inferences| <= 8
  {
    var n := |d.facts|;
    assert forall i :: 0 <= i < n ==> Claims(d)[i] == d.facts[i].claim;
    assert forall i :: 0 <= i < |d.inferences| ==> Claims(d)[n + i] == d.inferences[i].claim;
    forall j, c | 0 <= j < |d.inferences| && c in d.inferences[j].facts
      ensures exists i :: 0 <= i < |d.facts| && d.facts[i].claim == c
    {
      assert KnownFacts(d, d.inferences[j]);
      var i :| 0 <= i < |FactClaims(d.facts)| && FactClaims(d.facts)[i] == c;
    }
  }

  lemma CapabilitiesExact(es: seq<Entry>, refs: seq<string>)
    requires forall ref :: ref in refs ==> Resolve(es, ref).Some?
    ensures forall c :: c in Capabilities(es, refs) <==>
              exists ref :: ref in refs && HasCapability(es, ref, c)
  {
    hide Resolve;
    forall c
      ensures c in Capabilities(es, refs) <==>
                exists ref :: ref in refs && HasCapability(es, ref, c)
    {
      if c in Capabilities(es, refs) {
        var i :| 0 <= i < |refs| && refs[i] in refs && Resolve(es, refs[i]).value.entry.capability == Some(c);
        assert HasCapability(es, refs[i], c);
      }
      if ref :| ref in refs && HasCapability(es, ref, c) {
        var i :| 0 <= i < |refs| && refs[i] == ref;
        assert refs[i] in refs;
      }
    }
  }

  // ---------------------------------------------------------------- the rest of the brief

  /** Everything else a brief says: the draft's own title, inferences and confidences; the confidence of each
      fact's first source; a warning exactly when a cited number is stale or degraded; a publication date exactly
      when a source has one, and then the first; and the planning limitation exactly when a planning number is
      cited, in place of everything when a planning query found nothing. */
  lemma BriefCarries(d: Draft, es: seq<Entry>, g: Guards)
    requires Finalizable(d, es, g)
    ensures var b := BriefOf(d, es);
            && b.title == d.title && b.inferences == d.inferences
            && (b.staleWarning <==> exists ref :: Cites(d.facts, ref) && IsStale(es, ref))
            && (b.degradedWarning <==> exists ref :: Cites(d.facts, ref) && IsDegraded(es, ref))
            && (b.publishedAt.None? <==> forall i :: 0 <= i < |b.sources| ==> b.sources[i].publishedAt.None?)
            && (b.publishedAt.Some? ==> FirstOf(b.sources, b.publishedAt))
            && b.limitations == (if d.facts == [] && EmptyPlanningQuery(es) then [PLANNING_UNAVAILABLE]
                                 else if exists ref :: Cites(d.facts, ref) && IsPlanning(es, ref)
                                 then d.limitations + [PLANNING_LIMITATION] else d.limitations)
            && (forall i :: 0 <= i < |d.facts| ==>
                  && d.facts[i].claim in b.factConfidence && b.factConfidence[d.facts[i].claim] == d.facts[i].confidence
                  && d.facts[i].claim in b.datasourceConfidence
                  && FirstSourceConfidence(es, d.facts[i], b.datasourceConfidence[d.facts[i].claim]))
            && (forall i :: 0 <= i < |d.inferences| ==>
                  && d.inferences[i].claim in b.inferenceConfidence
                  && b.inferenceConfidence[d.inferences[i].claim] == d.inferences[i].confidence)
  {
    hide DraftOk, Sound, Resolve, LineageMap, Cites, SourcesOf, Distinct, AllRefs, FirstPublished, FirstOf,
         SourceConfidences, FactConfidences, InferenceConfidences, AnyStale, AnyDegraded, Capabilities,
         IsStale, IsDegraded, IsPlanning, Hydrated, FirstSourceConfidence, Cited;
    CitedRefsResolve(es, d.facts);
    var refs, b := Distinct(AllRefs(d.facts)), BriefOf(d, es);
    RefsAreCited(d.facts, refs);
    FlagsExact(d, es, refs);
    PublishedExact(b.sources);
    ClaimsOnce(d);
    ConfidencesExact(es, d.facts);
    InferencesExact(d.inferences);
  }

  ghost predicate IsStale(es: seq<Entry>, ref: string) {
    Resolve(es, ref).Some? && Resolve(es, ref).value.entry.freshness.stale
  }

  ghost predicate IsDegraded(es: seq<Entry>, ref: string) {
    Resolve(es, ref).Some? && Resolve(es, ref).value.entry.freshness.degraded
  }

  ghost predicate IsPlanning(es: seq<Entry>, ref: string) {
    Resolve(es, ref).Some? && Resolve(es, ref).value.entry.capability == Some("london-planning-activity")
  }

  ghost predicate FirstOf(ss: seq<Source>, at: Option<string>) {
    at.Some?
    && exists i :: 0 <= i < |ss| && ss[i].publishedAt == at && forall j :: 0 <= j < i ==> ss[j].publishedAt.None?
  }

  /** The confidence of the only publication record of the fact's first reference. */
  ghost predicate FirstSourceConfidence(es: seq<Entry>, f: Fact, c: Confidence) {
    FactRefs(f) != [] && exists m :: OnlyMeta(es, FactRefs(f)[0], m) && m.confidence == c
  }

  lemma RefsAreCited(facts: seq<Fact>, refs: seq<string>)
    requires refs == Distinct(AllRefs(facts))
    ensures forall ref :: ref in refs <==> Cites(facts, ref)
  {
    hide Distinct, AllRefs, Cites;
    DistinctExact(AllRefs(facts));
    forall ref
      ensures ref in refs <==> Cites(facts, ref)
    {
      AllRefsFrom(facts, ref);
      CitesMeans(facts, ref);
    }
  }

  lemma FlagsExact(d: Draft, es: seq<Entry>, refs: seq<string>)
    requires forall ref :: ref in refs ==> Resolve(es, ref).Some?
    requires forall ref :: ref in refs <==> Cites(d.facts, ref)
    ensures AnyStale(es, refs) <==> exists ref :: Cites(d.facts, ref) && IsStale(es, ref)
    ensures AnyDegraded(es, refs) <==> exists ref :: Cites(d.facts, ref) && IsDegraded(es, ref)
    ensures PLANNING in Capabilities(es, refs) <==> exists ref :: Cites(d.facts, ref) && IsPlanning(es, ref)
  {
    hide Resolve, Cites;
    if i :| 0 <= i < |refs| && refs[i] in refs && Resolve(es, refs[i]).value.entry.freshness.stale {
      assert Cites(d.facts, refs[i]) && IsStale(es, refs[i]);
    }
    if i :| 0 <= i < |refs| && refs[i] in refs && Resolve(es, refs[i]).value.entry.freshness.degraded {
      assert Cites(d.facts, refs[i]) && IsDegraded(es, refs[i]);
    }
    if PLANNING in Capabilities(es, refs) {
      var i :| 0 <= i < |refs| && refs[i] in refs && Resolve(es, refs[i]).value.entry.capability == Some(PLANNING);
      assert Cites(d.facts, refs[i]) && IsPlanning(es, refs[i]);
    }
    forall ref | Cites(d.facts, ref)
      ensures exists i :: 0 <= i < |refs| && refs[i] == ref && refs[i] in refs
    {
      assert ref in refs;
    }
  }

  lemma {:induction false} PublishedExact(ss: seq<Source>)
    ensures FirstPublished(ss).None? <==> forall i :: 0 <= i < |ss| ==> ss[i].publishedAt.None?
    ensures FirstPublished(ss).Some? ==> FirstOf(ss, FirstPublished(ss))
  {
    if ss != [] && ss[0].publishedAt.None? {
      PublishedExact(ss[1..]);
      var rest := ss[1..];
      if FirstPublished(ss).Some? {
        var i :| 0 <= i < |rest| && rest[i].publishedAt == FirstPublished(ss)
                 && forall j :: 0 <= j < i ==> rest[j].publishedAt.None?;
        assert ss[i + 1] == rest[i] && forall j :: 0 < j < i + 1 ==> ss[j] == rest[j - 1];
      } else {
        assert forall i :: 0 < i < |ss| ==> ss[i] == rest[i - 1];
      }
    }
  }

  lemma ClaimsOnce(d: Draft)
    requires DraftOk(d)
    ensures NoRepeats(FactClaims(d.facts))
    ensures forall i, j :: 0 <= i < j < |d.inferences| ==> d.inferences[i].claim != d.inferences[j].claim
  {
    FactClaimsDistinct(d);
    var n := |d.facts|;
    assert forall i :: 0 <= i < |d.inferences| ==> Claims(d)[n + i] == d.inferences[i].claim;
  }

  lemma {:induction false} ConfidencesExact(es: seq<Entry>, facts: seq<Fact>)
    requires Sound(es) && FactsCited(es, facts) && NoRepeats(FactClaims(facts))
    ensures forall i :: 0 <= i < |facts| ==>
              && facts[i].claim in FactConfidences(facts)
                 && FactConfidences(facts)[facts[i].claim] == facts[i].confidence
              && facts[i].claim in SourceConfidences(es, facts)
              && FirstSourceConfidence(es, facts[i], SourceConfidences(es, facts)[facts[i].claim])
  {
    hide Sound, Cited, FirstSourceConfidence, SourceConfidence;
    if facts != [] {
      var n := |facts| - 1;
      var front := facts[..n];
      assert forall i :: 0 <= i < n ==> front[i] == facts[i] && FactClaims(front)[i] == FactClaims(facts)[i];
      ConfidencesExact(es, front);
      FirstSource(es, facts[n]);
      forall i | 0 <= i < n
        ensures facts[i].claim != facts[n].claim
      {
        assert FactClaims(facts)[i] != FactClaims(facts)[n];
      }
    }
  }

  lemma FirstSource(es: seq<Entry>, f: Fact)
    requires Sound(es) && Cited(es, f)
    ensures FirstSourceConfidence(es, f, SourceConfidence(es, f))
  {
    hide Sound, Resolve, OnlyMeta;
    assert FactRefs(f)[0] in FactRefs(f);
    ResolveExact(es, FactRefs(f)[0]);
  }

  lemma {:induction false} InferencesExact(xs: seq<Inference>)
    requires forall i, j :: 0 <= i < j < |xs| ==> xs[i].claim != xs[j].claim
    ensures forall i :: 0 <= i < |xs| ==>
              xs[i].claim in InferenceConfidences(xs) && InferenceConfidences(xs)[xs[i].claim] == xs[i].confidence
  {
    if xs != [] {
      var n := |xs| - 1;
      InferencesExact(xs[..n]);
      assert forall i :: 0 <= i < n ==> xs[..n][i] == xs[i];
    }
  }
}
