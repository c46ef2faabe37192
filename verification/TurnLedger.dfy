/** The evidence ledger of a turn: what its successful queries and citation look-ups returned. */
module TurnLedger {
  import opened Base

  datatype Confidence = High | Medium | Low

  /** The six numeric fields of a projection. */
  datatype Fields = Fields(value: string, unit: string, definition: string, asOf: string, sourceDate: string,
                           periodLabel: string)

  /** The publication fields of a projection. */
  datatype Meta = Meta(publishedAt: Option<string>, confidence: Confidence, source: string, publicUrl: Option<string>,
                       anchor: Option<string>)

  datatype Freshness = Freshness(stale: bool, degraded: bool)

  datatype EntryKind = QueryEntry | CitationEntry

  /** A ledger entry with what the two parsers make of its projection. */
  datatype Entry = Entry(
    kind: EntryKind, anchor: string, capability: Option<string>, observations: seq<string>, refs: seq<string>,
    numeric: Option<Fields>, metadata: Option<Meta>, freshness: Freshness)

  /** A numeric object as a query returned it: any field may be missing. */
  datatype RawNumeric = RawNumeric(
    value: Option<string>, unit: Option<string>, definition: Option<string>, asOf: Option<string>,
    sourceDate: Option<string>, periodLabel: Option<string>)

  datatype QueryRecord = QueryRecord(observation: Option<string>, refs: seq<string>, numeric: Option<RawNumeric>,
                                     freshness: Freshness)

  datatype RawCitation = RawCitation(
    ref: Option<string>, observation: Option<string>, publishedAt: Option<string>, confidence: Option<Confidence>,
    publisher: Option<string>, publicUrl: Option<string>)

  /** `parseNumericFields` */
  function ParseNumeric(n: RawNumeric): Option<Fields> {
    if n.value.None? || n.unit.None? || n.definition.None? || n.asOf.None? || n.sourceDate.None?
       || n.periodLabel.None? then None
    else Some(Fields(n.value.value, n.unit.value, n.definition.value, n.asOf.value, n.sourceDate.value,
                     n.periodLabel.value))
  }

  /** `parseCitationMetadata` */
  function ParseMeta(c: RawCitation, anchor: string): Option<Meta> {
    if c.confidence.None? || c.publisher.None? then None
    else Some(Meta(c.publishedAt, c.confidence.value, c.publisher.value, c.publicUrl, Some(anchor)))
  }

  function Listed(o: Option<string>): seq<string> {
    if o.Some? then [o.value] else []
  }

  /** A query record's entry; a missing period label falls back to the source date. */
  function EntryOf(anchor: string, capability: string, r: QueryRecord): Entry {
    var numeric := match r.numeric
      case None => None
      case Some(n) => ParseNumeric(if n.periodLabel.None? then n.(periodLabel := n.sourceDate) else n);
    Entry(QueryEntry, anchor, Some(capability), Listed(r.observation), r.refs, numeric, None, r.freshness)
  }

  function EntriesOf(anchor: string, capability: string, rs: seq<QueryRecord>): (es: seq<Entry>)
    ensures |es| == |rs| && forall i :: 0 <= i < |rs| ==> es[i] == EntryOf(anchor, capability, rs[i])
  {
    seq(|rs|, i requires 0 <= i < |rs| => EntryOf(anchor, capability, rs[i]))
  }

  /** `addQueryLedger`: one entry for each record, or one empty entry that remembers the attempt. */
  function AddedQuery(es: seq<Entry>, anchor: Option<string>, capability: Option<string>,
                      rs: seq<QueryRecord>): seq<Entry> {
    if anchor.None? || capability.None? then es
    else if rs == [] then es + [Entry(QueryEntry, anchor.value, capability, [], [], None, None,
                                      Freshness(false, false))]
    else es + EntriesOf(anchor.value, capability.value, rs)
  }

  /** The query entry that a citation speaks about. */
  predicate Backs(e: Entry, ref: string, observation: Option<string>) {
    e.kind.QueryEntry? && ref in e.refs && (observation.Some? ==> observation.value in e.observations)
  }

  function FirstBacking(es: seq<Entry>, ref: string, observation: Option<string>): Option<Entry> {
    if es == [] then None
    else if Backs(es[0], ref, observation) then Some(es[0])
    else FirstBacking(es[1..], ref, observation)
  }

  function CitationOf(query: Entry, c: RawCitation, ref: string): Entry {
    Entry(CitationEntry, query.anchor, query.capability, Listed(c.observation), [ref], None,
          ParseMeta(c, query.anchor), Freshness(false, false))
  }

  function EnrichedOne(es: seq<Entry>, c: RawCitation): seq<Entry> {
    if c.ref.None? then es
    else match FirstBacking(es, c.ref.value, c.observation)
         case None => es
         case Some(query) => es + [CitationOf(query, c, c.ref.value)]
  }

  /** `enrichQueryLedger` */
  function Enriched(es: seq<Entry>, cs: seq<RawCitation>): seq<Entry> {
    if cs == [] then es else EnrichedOne(Enriched(es, cs[..|cs| - 1]), cs[|cs| - 1])
  }

  // ---------------------------------------------------------------- the invariant

  /** Numbers come from queries only; publication data comes from citations only, each about one
      reference that a query entry of the same anchor and capability carries. */
  ghost predicate EntryOk(es: seq<Entry>, e: Entry) {
    match e.kind
    case QueryEntry => e.metadata.None?
    case CitationEntry =>
      && e.numeric.None? && |e.refs| == 1
      && (exists q :: q in es && Backs(q, e.refs[0], None) && q.anchor == e.anchor && q.capability == e.capability
                      && (forall o :: o in e.observations ==> o in q.observations))
  }

  ghost predicate LedgerOk(es: seq<Entry>) {
    forall i :: 0 <= i < |es| ==> EntryOk(es, es[i])
  }

  lemma GrownOk(es: seq<Entry>, more: seq<Entry>)
    requires LedgerOk(es) && forall i :: 0 <= i < |more| ==> EntryOk(es + more, more[i])
    ensures LedgerOk(es + more)
  {
    var all := es + more;
    forall i | 0 <= i < |es|
      ensures EntryOk(all, es[i])
    {
      assert EntryOk(es, es[i]);
      if es[i].kind.CitationEntry? {
        var q :| q in es && Backs(q, es[i].refs[0], None) && q.anchor == es[i].anchor
                 && q.capability == es[i].capability
                 && (forall o :: o in es[i].observations ==> o in q.observations);
        assert q in all;
      }
    }
  }

  lemma AddedOk(es: seq<Entry>, anchor: Option<string>, capability: Option<string>, rs: seq<QueryRecord>)
    requires LedgerOk(es)
    ensures LedgerOk(AddedQuery(es, anchor, capability, rs))
  {
    var es' := AddedQuery(es, anchor, capability, rs);
    if es' != es {
      GrownOk(es, es'[|es|..]);
      assert es' == es + es'[|es|..];
    }
  }

  lemma {:induction false} FirstBackingFound(es: seq<Entry>, ref: string, observation: Option<string>)
    ensures match FirstBacking(es, ref, observation)
            case None => forall e :: e in es ==> !Backs(e, ref, observation)
            case Some(e) => e in es && Backs(e, ref, observation)
  {
    if es != [] {
      FirstBackingFound(es[1..], ref, observation);
    }
  }

  lemma EnrichedOneOk(es: seq<Entry>, c: RawCitation)
    requires LedgerOk(es)
    ensures LedgerOk(EnrichedOne(es, c))
  {
    if c.ref.Some? {
      FirstBackingFound(es, c.ref.value, c.observation);
      match FirstBacking(es, c.ref.value, c.observation)
      case None =>
      case Some(q) =>
        var e := CitationOf(q, c, c.ref.value);
        assert q in es + [e] && Backs(q, e.refs[0], None);
        assert EntryOk(es + [e], e);
        GrownOk(es, [e]);
    }
  }

  lemma {:induction false} EnrichedOk(es: seq<Entry>, cs: seq<RawCitation>)
    requires LedgerOk(es)
    ensures LedgerOk(Enriched(es, cs))
  {
    if cs != [] {
      EnrichedOk(es, cs[..|cs| - 1]);
      EnrichedOneOk(Enriched(es, cs[..|cs| - 1]), cs[|cs| - 1]);
    }
  }

  /** A successful tool call of the turn. */
  datatype Tool =
    | Queried(anchor: Option<string>, capability: Option<string>, records: seq<QueryRecord>)
    | Cited(citations: seq<RawCitation>)

  function AfterCall(es: seq<Entry>, call: Tool): seq<Entry> {
    match call
    case Queried(anchor, capability, records) => AddedQuery(es, anchor, capability, records)
    case Cited(citations) => Enriched(es, citations)
  }

  function Recorded(tools: seq<Tool>): seq<Entry> {
    if tools == [] then [] else AfterCall(Recorded(tools[..|tools| - 1]), tools[|tools| - 1])
  }

  /** Whatever tools a turn called, its ledger keeps the invariant. */
  lemma {:induction false} RecordedOk(tools: seq<Tool>)
    ensures LedgerOk(Recorded(tools))
  {
    if tools != [] {
      var before, last := Recorded(tools[..|tools| - 1]), tools[|tools| - 1];
      RecordedOk(tools[..|tools| - 1]);
      match last
      case Queried(anchor, capability, records) => AddedOk(before, anchor, capability, records);
      case Cited(citations) => EnrichedOk(before, citations);
    }
  }

  lemma RecordedOneMore(tools: seq<Tool>, call: Tool)
    ensures Recorded(tools + [call]) == AfterCall(Recorded(tools), call)
  {
    assert (tools + [call])[..|tools|] == tools;
  }

  // ---------------------------------------------------------------- what the tools returned

  /** Field by field, the number that the query returned; a missing period label reads as the source date. */
  predicate SameNumber(raw: RawNumeric, f: Fields) {
    && raw.value == Some(f.value) && raw.unit == Some(f.unit) && raw.definition == Some(f.definition)
    && raw.asOf == Some(f.asOf) && raw.sourceDate == Some(f.sourceDate)
    && (if raw.periodLabel.Some? then raw.periodLabel == Some(f.periodLabel) else f.periodLabel == f.sourceDate)
  }

  /** The record has a number that is complete but perhaps for its period label. */
  predicate HasNumber(r: QueryRecord) {
    && r.numeric.Some? && r.numeric.value.value.Some? && r.numeric.value.unit.Some? && r.numeric.value.definition.Some?
    && r.numeric.value.asOf.Some? && r.numeric.value.sourceDate.Some?
  }

  /** The entry is what the query returned in this record: nothing added, dropped or exchanged. */
  predicate TellsRecord(e: Entry, call: Tool, r: QueryRecord)
    requires call.Queried?
  {
    && e.kind.QueryEntry? && Some(e.anchor) == call.anchor && e.capability == call.capability
    && e.refs == r.refs && e.observations == (if r.observation.Some? then [r.observation.value] else [])
    && e.freshness == r.freshness && e.metadata.None?
    && (e.numeric.Some? <==> HasNumber(r))
    && (e.numeric.Some? ==> SameNumber(r.numeric.value, e.numeric.value))
  }

  /** The entry is what the citation look-up returned. */
  predicate TellsCitation(e: Entry, c: RawCitation) {
    && e.kind.CitationEntry? && c.ref.Some? && e.refs == [c.ref.value] && e.numeric.None?
    && e.observations == (if c.observation.Some? then [c.observation.value] else [])
    && (e.metadata.Some? <==> c.confidence.Some? && c.publisher.Some?)
    && (e.metadata.Some? ==>
          var m := e.metadata.value;
          && c.publisher == Some(m.source) && c.confidence == Some(m.confidence)
          && m.publishedAt == c.publishedAt && m.publicUrl == c.publicUrl && m.anchor == Some(e.anchor))
  }

  /** Where an entry comes from: a record or an empty result of a query of the turn, or one of its citations. */
  ghost predicate Told(tools: seq<Tool>, e: Entry) {
    || (exists t, i :: 0 <= t < |tools| && tools[t].Queried? && 0 <= i < |tools[t].records|
                       && TellsRecord(e, tools[t], tools[t].records[i]))
    || (exists t :: 0 <= t < |tools| && tools[t].Queried? && tools[t].records == []
                    && e == Entry(QueryEntry, e.anchor, tools[t].capability, [], [], None, None,
                                  Freshness(false, false))
                    && tools[t].anchor == Some(e.anchor))
    || (exists t, i :: 0 <= t < |tools| && tools[t].Cited? && 0 <= i < |tools[t].citations|
                       && TellsCitation(e, tools[t].citations[i]))
  }

  lemma ToldLonger(tools: seq<Tool>, call: Tool, e: Entry)
    requires Told(tools, e)
    ensures Told(tools + [call], e)
  {
    var more := tools + [call];
    hide TellsRecord, TellsCitation;
    if t, i :| 0 <= t < |tools| && tools[t].Queried? && 0 <= i < |tools[t].records|
               && TellsRecord(e, tools[t], tools[t].records[i]) {
      assert more[t] == tools[t];
    } else if t, i :| 0 <= t < |tools| && tools[t].Cited? && 0 <= i < |tools[t].citations|
                      && TellsCitation(e, tools[t].citations[i]) {
      assert more[t] == tools[t];
    } else {
      var t :| 0 <= t < |tools| && tools[t].Queried? && tools[t].records == []
               && e == Entry(QueryEntry, e.anchor, tools[t].capability, [], [], None, None, Freshness(false, false))
               && tools[t].anchor == Some(e.anchor);
      assert more[t] == tools[t];
    }
  }

  lemma EntryTellsRecord(anchor: string, call: Tool, r: QueryRecord)
    requires call.Queried? && call.anchor == Some(anchor) && call.capability.Some?
    ensures TellsRecord(EntryOf(anchor, call.capability.value, r), call, r)
  {
  }

  lemma {:induction false} EnrichedTold(es: seq<Entry>, cs: seq<RawCitation>, j: nat)
    requires j < |Enriched(es, cs)|
    ensures || (j < |es| && Enriched(es, cs)[j] == es[j])
            || exists i :: 0 <= i < |cs| && TellsCitation(Enriched(es, cs)[j], cs[i])
  {
    hide TellsCitation;
    if cs != [] {
      var n := |cs| - 1;
      var before := Enriched(es, cs[..n]);
      if j < |before| {
        EnrichedTold(es, cs[..n], j);
        if i :| 0 <= i < n && TellsCitation(before[j], cs[..n][i]) {
          assert cs[i] == cs[..n][i];
        }
      } else {
        LastTold(before, cs[n]);
      }
    }
  }

  lemma LastTold(es: seq<Entry>, c: RawCitation)
    ensures var es' := EnrichedOne(es, c);
            es' == es || (|es'| == |es| + 1 && es <= es' && TellsCitation(es'[|es|], c))
  {
  }

  /** The ledger tells the truth about the turn: every entry is, field by field, a record that a query returned, an
      empty result, or a citation that a look-up returned. */
  lemma {:induction false} RecordedTold(tools: seq<Tool>, j: nat)
    requires j < |Recorded(tools)|
    ensures Told(tools, Recorded(tools)[j])
  {
    hide TellsRecord, TellsCitation, Told;
    var n := |tools| - 1;
    var front, call := tools[..n], tools[n];
    var before := Recorded(front);
    assert tools == front + [call];
    if j < |before| {
      RecordedTold(front, j);
      CallKeeps(before, call, j);
      ToldLonger(front, call, before[j]);
    } else {
      CallTold(tools, before, j);
    }
  }

  lemma CallKeeps(es: seq<Entry>, call: Tool, j: nat)
    requires j < |es|
    ensures j < |AfterCall(es, call)| && AfterCall(es, call)[j] == es[j]
  {
    if call.Cited? {
      EnrichedKeeps(es, call.citations, j);
    }
  }

  lemma {:induction false} EnrichedKeeps(es: seq<Entry>, cs: seq<RawCitation>, j: nat)
    requires j < |es|
    ensures j < |Enriched(es, cs)| && Enriched(es, cs)[j] == es[j]
  {
    if cs != [] {
      EnrichedKeeps(es, cs[..|cs| - 1], j);
    }
  }

  lemma CallTold(tools: seq<Tool>, es: seq<Entry>, j: nat)
    requires tools != [] && |es| <= j < |AfterCall(es, tools[|tools| - 1])|
    ensures Told(tools, AfterCall(es, tools[|tools| - 1])[j])
  {
    hide TellsRecord, TellsCitation;
    var t := |tools| - 1;
    var call := tools[t];
    if call.Cited? {
      EnrichedTold(es, call.citations, j);
      var i :| 0 <= i < |call.citations| && TellsCitation(AfterCall(es, call)[j], call.citations[i]);
      assert TellsCitation(AfterCall(es, call)[j], tools[t].citations[i]);
    } else if call.records != [] {
      var i := j - |es|;
      EntryTellsRecord(call.anchor.value, call, call.records[i]);
      assert TellsRecord(AfterCall(es, call)[j], tools[t], tools[t].records[i]);
    }
  }

  /** And nothing is left out: every record of every well-formed query has its entry. */
  lemma {:induction false} RecordsAreTold(tools: seq<Tool>, t: nat, i: nat) returns (j: nat)
    requires t < |tools| && tools[t].Queried? && tools[t].anchor.Some? && tools[t].capability.Some?
    requires i < |tools[t].records|
    ensures j < |Recorded(tools)| && TellsRecord(Recorded(tools)[j], tools[t], tools[t].records[i])
  {
    hide TellsRecord;
    var n := |tools| - 1;
    var front, call := tools[..n], tools[n];
    var before := Recorded(front);
    if t < n {
      j := RecordsAreTold(front, t, i);
      CallKeeps(before, call, j);
    } else {
      j := |before| + i;
      EntryTellsRecord(call.anchor.value, call, call.records[i]);
    }
  }

  /** Every citation about a reference that an earlier query returned has its entry, too. */
  lemma {:induction false} CitationsAreTold(tools: seq<Tool>, t: nat, i: nat, q: Entry) returns (j: nat)
    requires t < |tools| && tools[t].Cited? && i < |tools[t].citations| && tools[t].citations[i].ref.Some?
    requires q in Recorded(tools[..t]) && Backs(q, tools[t].citations[i].ref.value, tools[t].citations[i].observation)
    ensures j < |Recorded(tools)| && TellsCitation(Recorded(tools)[j], tools[t].citations[i])
  {
    hide TellsCitation;
    var n := |tools| - 1;
    var front, call := tools[..n], tools[n];
    if t < n {
      assert front[..t] == tools[..t];
      j := CitationsAreTold(front, t, i, q);
      CallKeeps(Recorded(front), call, j);
    } else {
      j := BackedIsTold(Recorded(front), call.citations, i, q);
    }
  }

  lemma {:induction false} BackedIsTold(es: seq<Entry>, cs: seq<RawCitation>, i: nat, q: Entry) returns (j: nat)
    requires i < |cs| && cs[i].ref.Some? && q in es && Backs(q, cs[i].ref.value, cs[i].observation)
    ensures j < |Enriched(es, cs)| && TellsCitation(Enriched(es, cs)[j], cs[i])
  {
    hide Backs;
    var n := |cs| - 1;
    var before := Enriched(es, cs[..n]);
    if i < n {
      j := BackedIsTold(es, cs[..n], i, q);
    } else {
      var x :| 0 <= x < |es| && es[x] == q;
      EnrichedKeeps(es, cs[..n], x);
      assert before[x] == q && q in before;
      FirstBackingFound(before, cs[n].ref.value, cs[n].observation);
      j := |before|;
    }
  }

  // ---------------------------------------------------------------- the turn's ledger array

  class Ledger {
    var entries: seq<Entry>
    ghost var tools: seq<Tool>

    /** The array is what the turn's tool calls recorded, and keeps the ledger invariant. */
    ghost predicate Valid()
      reads this
    {
      entries == Recorded(tools) && LedgerOk(entries)
    }

    constructor ()
      ensures Valid() && tools == []
    {
      entries, tools := [], [];
    }

    method AddQueryLedger(anchor: Option<string>, capability: Option<string>, records: seq<QueryRecord>)
      requires Valid()
      modifies this
      ensures Valid() && tools == old(tools) + [Queried(anchor, capability, records)]
      ensures entries == AddedQuery(old(entries), anchor, capability, records)
    {
      ghost var call := Queried(anchor, capability, records);
      RecordedOneMore(tools, call);
      AddedOk(entries, anchor, capability, records);
      tools := tools + [call];
      if anchor.None? || capability.None? {
        return;
      }
      if records == [] {
        entries := entries + [Entry(QueryEntry, anchor.value, capability, [], [], None, None, Freshness(false, false))];
        return;
      }
      ghost var all := EntriesOf(anchor.value, capability.value, records);
      for i := 0 to |records|
        invariant entries == old(entries) + all[..i] && tools == old(tools) + [call]
      {
        var r := records[i];
        var numeric := None;
        if r.numeric.Some? {
          var raw := r.numeric.value;
          if raw.periodLabel.None? {
            raw := raw.(periodLabel := raw.sourceDate);
          }
          numeric := ParseNumeric(raw);
        }
        var e := Entry(QueryEntry, anchor.value, capability, Listed(r.observation), r.refs, numeric, None, r.freshness);
        assert e == all[i] && all[..i + 1] == all[..i] + [all[i]];
        entries := entries + [e];
      }
      assert all[..|records|] == all;
    }

    /** The first query entry that carries the reference and, if one is named, the observation. */
    method FindQuery(ref: string, observation: Option<string>) returns (q: Option<Entry>)
      ensures q == FirstBacking(entries, ref, observation)
    {
      assert entries[0..] == entries;
      for i := 0 to |entries|
        invariant FirstBacking(entries, ref, observation) == FirstBacking(entries[i..], ref, observation)
      {
        assert entries[i..][1..] == entries[i + 1..];
        if entries[i].kind.QueryEntry? && ref in entries[i].refs
           && (observation.None? || observation.value in entries[i].observations) {
          return Some(entries[i]);
        }
      }
      q := None;
    }

    method EnrichQueryLedger(citations: seq<RawCitation>)
      requires Valid()
      modifies this
      ensures Valid() && tools == old(tools) + [Cited(citations)]
      ensures entries == Enriched(old(entries), citations)
    {
      RecordedOneMore(tools, Cited(citations));
      EnrichedOk(entries, citations);
      tools := tools + [Cited(citations)];
      for i := 0 to |citations|
        invariant entries == Enriched(old(entries), citations[..i]) && tools == old(tools) + [Cited(citations)]
      {
        assert citations[..i + 1][..i] == citations[..i];
        var c := citations[i];
        if c.ref.None? {
          continue;
        }
        var query := FindQuery(c.ref.value, c.observation);
        if query.None? {
          continue;
        }
        entries := entries + [CitationOf(query.value, c, c.ref.value)];
      }
      assert citations[..|citations|] == citations;
    }
  }
}
