/** Canonical JSON, version one: the identity that dedupe keys and revision hashes rest on. */
module CanonicalJson {
  import opened Base
  import opened JsonText

  /** Unicode normalization form C, of which only idempotence is used. */
  type Nfc = string -> string

  ghost predicate Idempotent(nfc: Nfc) {
    forall s: string :: nfc(nfc(s)) == nfc(s)
  }

  /** Code-point order of strings, the order of `sort_keys=True`. */
  predicate Less(a: string, b: string) {
    b != [] && (a == [] || a[0] < b[0] || (a[0] == b[0] && Less(a[1..], b[1..])))
  }

  lemma {:induction false} LessTrichotomy(a: string, b: string)
    ensures Less(a, b) || a == b || Less(b, a)
    ensures !(Less(a, b) && Less(b, a))
    ensures !Less(a, a)
  {
    if a != [] && b != [] {
      LessTrichotomy(a[1..], b[1..]);
      LessTrichotomy(a[1..], a[1..]);
      assert a[0] == b[0] && a[1..] == b[1..] ==> a == [a[0]] + a[1..] == b;
    } else if a != [] {
      LessTrichotomy(a[1..], a[1..]);
    }
  }

  lemma {:induction false} LessTransitive(a: string, b: string, c: string)
    requires Less(a, b) && Less(b, c)
    ensures Less(a, c)
  {
    if a != [] && a[0] == b[0] && b[0] == c[0] {
      LessTransitive(a[1..], b[1..], c[1..]);
    }
  }

  // ---------------------------------------------------------------- dictionaries

  /** A dictionary is written down as its entries in key order, each key once. */
  ghost predicate Sorted(ps: seq<Pair>) {
    forall i, j :: 0 <= i < j < |ps| ==> Less(ps[i].key, ps[j].key)
  }

  predicate HasKey(ps: seq<Pair>, key: string) {
    exists i :: 0 <= i < |ps| && ps[i].key == key
  }

  /** `normalized[key] = value` for a key that is not there yet. */
  function Put(ps: seq<Pair>, p: Pair): seq<Pair> {
    if ps == [] then [p]
    else if Less(p.key, ps[0].key) then [p] + ps
    else [ps[0]] + Put(ps[1..], p)
  }

  lemma {:induction false} PutKeeps(ps: seq<Pair>, p: Pair)
    requires Sorted(ps) && !HasKey(ps, p.key)
    ensures Sorted(Put(ps, p))
    ensures forall x :: x in Put(ps, p) <==> x == p || x in ps
    ensures forall k :: HasKey(Put(ps, p), k) <==> k == p.key || HasKey(ps, k)
  {
    if ps != [] {
      assert ps == [ps[0]] + ps[1..];
      LessTrichotomy(p.key, ps[0].key);
      assert ps[0].key != p.key;
      if Less(p.key, ps[0].key) {
        var all := [p] + ps;
        forall i, j | 0 <= i < j < |all|
          ensures Less(all[i].key, all[j].key)
        {
          if i == 0 && j > 1 {
            LessTransitive(p.key, ps[0].key, ps[j - 1].key);
          }
        }
      } else {
        var rest := ps[1..];
        assert !HasKey(rest, p.key);
        PutKeeps(rest, p);
        var put := Put(rest, p);
        forall j | 0 <= j < |put|
          ensures Less(ps[0].key, put[j].key)
        {
          assert put[j] in put;
          if put[j] != p {
            var k :| 0 <= k < |rest| && rest[k] == put[j];
            assert Less(ps[0].key, ps[k + 1].key);
          }
        }
      }
    }
    KeysOfMembers(Put(ps, p), ps, p);
  }

  lemma KeysOfMembers(qs: seq<Pair>, ps: seq<Pair>, p: Pair)
    requires forall x :: x in qs <==> x == p || x in ps
    ensures forall k :: HasKey(qs, k) <==> k == p.key || HasKey(ps, k)
  {
    forall k
      ensures HasKey(qs, k) <==> k == p.key || HasKey(ps, k)
    {
      if HasKey(qs, k) {
        var i :| 0 <= i < |qs| && qs[i].key == k;
        assert qs[i] in qs;
      }
      if k == p.key {
        assert p in qs;
      }
      if HasKey(ps, k) {
        var i :| 0 <= i < |ps| && ps[i].key == k;
        assert ps[i] in qs;
      }
    }
  }

  /** A dictionary is determined by its entries: two sorted lists with the same entries are equal. */
  lemma {:induction false} SortedUnique(ps: seq<Pair>, qs: seq<Pair>)
    requires Sorted(ps) && Sorted(qs) && forall x :: x in ps <==> x in qs
    ensures ps == qs
  {
    NonemptyHas(ps);
    NonemptyHas(qs);
    if ps != [] && qs != [] {
      assert ps[0] in ps && qs[0] in qs;
      HeadsAgree(ps, qs);
      assert forall x :: x in ps[1..] <==> x in qs[1..] by {
        TailMembers(ps);
        TailMembers(qs);
      }
      SortedUnique(ps[1..], qs[1..]);
      assert ps == [ps[0]] + ps[1..] && qs == [qs[0]] + qs[1..];
    }
  }

  lemma NonemptyHas(ps: seq<Pair>)
    ensures ps != [] ==> exists x :: x in ps
  {
    if ps != [] {
      assert ps[0] in ps;
    }
  }

  lemma HeadsAgree(ps: seq<Pair>, qs: seq<Pair>)
    requires Sorted(ps) && Sorted(qs) && ps != [] && qs != [] && ps[0] in qs && qs[0] in ps
    ensures ps[0] == qs[0]
  {
    var i :| 0 <= i < |qs| && qs[i] == ps[0];
    var j :| 0 <= j < |ps| && ps[j] == qs[0];
    if i > 0 && j > 0 {
      LessTrichotomy(ps[0].key, qs[0].key);
    }
  }

  lemma TailMembers(ps: seq<Pair>)
    requires Sorted(ps) && ps != []
    ensures forall x :: x in ps[1..] <==> x in ps && x != ps[0]
  {
    LessTrichotomy(ps[0].key, ps[0].key);
    assert ps == [ps[0]] + ps[1..];
    forall x | x in ps[1..]
      ensures x != ps[0]
    {
      var i :| 0 <= i < |ps[1..]| && ps[1..][i] == x;
      assert Less(ps[0].key, ps[i + 1].key);
    }
  }

  // ---------------------------------------------------------------- normalization

  datatype Outcome<T> = Done(value: T) | Refused

  /** `normalize_json`: strings and keys in form C; floats, other types, other keys and keys that
      collide after normalization are refused. */
  function Normalize(v: Value, nfc: Nfc): Outcome<Json>
    decreases v
  {
    match v
    case VNull => Done(Null)
    case VBool(b) => Done(Bool(b))
    case VInt(n) => Done(Int(n))
    case VText(s) => Done(Text(nfc(s)))
    case VArray(items) =>
      (match NormalizeItems(items, nfc)
       case Done(js) => Done(Array(js))
       case Refused => Refused)
    case VObject(members) =>
      (match NormalizeMembers(members, nfc)
       case Done(ps) => Done(Object(ps))
       case Refused => Refused)
    case VFloat => Refused
    case VOther => Refused
  }

  function NormalizeItems(items: seq<Value>, nfc: Nfc): (r: Outcome<seq<Json>>)
    ensures r.Done? ==> |r.value| == |items|
    decreases items
  {
    if items == [] then Done([])
    else
      var first, rest := Normalize(items[0], nfc), NormalizeItems(items[1..], nfc);
      if first.Refused? || rest.Refused? then Refused else Done([first.value] + rest.value)
  }

  function NormalizeMember(m: Member, nfc: Nfc): Outcome<Pair>
    decreases m
  {
    if m.key.OtherKey? then Refused
    else
      match Normalize(m.value, nfc)
      case Refused => Refused
      case Done(j) => Done(Pair(nfc(m.key.s), j))
  }

  /** The dictionary built member by member. */
  function NormalizeMembers(members: seq<Member>, nfc: Nfc): Outcome<seq<Pair>>
    decreases members
  {
    if members == [] then Done([])
    else
      var last := |members| - 1;
      var before, p := NormalizeMembers(members[..last], nfc), NormalizeMember(members[last], nfc);
      if before.Refused? || p.Refused? || HasKey(before.value, p.value.key) then Refused
      else Done(Put(before.value, p.value))
  }

  function CanonicalText(v: Value, nfc: Nfc): Outcome<string> {
    match Normalize(v, nfc)
    case Refused => Refused
    case Done(j) => Done(Print(j))
  }

  // ---------------------------------------------------------------- what a normalized value is

  /** Strings and keys are fixed points of form C, and every dictionary is in key order. */
  ghost predicate Normal(j: Json, nfc: Nfc)
    decreases j
  {
    match j
    case Text(s) => nfc(s) == s
    case Array(items) => forall i :: 0 <= i < |items| ==> Normal(items[i], nfc)
    case Object(members) => Sorted(members) && forall i :: 0 <= i < |members| ==> NormalPair(members[i], nfc)
    case _ => true
  }

  ghost predicate NormalPair(p: Pair, nfc: Nfc)
    decreases p
  {
    nfc(p.key) == p.key && Normal(p.value, nfc)
  }

  /** When a member list makes a dictionary, and which one: every member is accepted, normalized keys
      differ, and the entries are exactly the normalized members. */
  ghost predicate Distinct(ms: seq<Member>, nfc: Nfc) {
    && (forall i :: 0 <= i < |ms| ==> NormalizeMember(ms[i], nfc).Done?)
    && (forall i, j :: 0 <= i < j < |ms| ==>
          NormalizeMember(ms[i], nfc).value.key != NormalizeMember(ms[j], nfc).value.key)
  }

  ghost predicate EntriesOf(ps: seq<Pair>, ms: seq<Member>, nfc: Nfc) {
    && Sorted(ps)
    && (forall x :: x in ps <==> Offered(ms, nfc, x))
  }

  /** A member of the list normalizes to this entry. */
  ghost predicate Offered(ms: seq<Member>, nfc: Nfc, x: Pair) {
    exists i :: 0 <= i < |ms| && NormalizeMember(ms[i], nfc) == Done(x)
  }

  lemma {:induction false} MembersExact(ms: seq<Member>, nfc: Nfc)
    ensures NormalizeMembers(ms, nfc).Done? <==> Distinct(ms, nfc)
    ensures NormalizeMembers(ms, nfc).Done? ==> EntriesOf(NormalizeMembers(ms, nfc).value, ms, nfc)
  {
    hide NormalizeMember;
    if ms != [] {
      var n := |ms| - 1;
      var front := ms[..n];
      assert forall i :: 0 <= i < n ==> front[i] == ms[i];
      MembersExact(front, nfc);
      var before, p := NormalizeMembers(front, nfc), NormalizeMember(ms[n], nfc);
      if before.Done? && p.Done? {
        KeyTaken(before.value, front, p.value.key, nfc);
        if !HasKey(before.value, p.value.key) {
          PutKeeps(before.value, p.value);
          EntriesGrow(before.value, ms, p.value, nfc);
        }
      }
      hide NormalizeMembers;
      DistinctSplit(ms, nfc);
    }
  }

  /** A key is in the dictionary exactly when an earlier member has it. */
  lemma KeyTaken(ps: seq<Pair>, ms: seq<Member>, key: string, nfc: Nfc)
    requires EntriesOf(ps, ms, nfc) && forall i :: 0 <= i < |ms| ==> NormalizeMember(ms[i], nfc).Done?
    ensures HasKey(ps, key) <==> exists i :: 0 <= i < |ms| && NormalizeMember(ms[i], nfc).value.key == key
  {
    hide NormalizeMember;
    if HasKey(ps, key) {
      var k :| 0 <= k < |ps| && ps[k].key == key;
      assert ps[k] in ps;
    }
    if i :| 0 <= i < |ms| && NormalizeMember(ms[i], nfc).value.key == key {
      var x := NormalizeMember(ms[i], nfc).value;
      assert x in ps;
      var k :| 0 <= k < |ps| && ps[k] == x;
    }
  }

  lemma EntriesGrow(ps: seq<Pair>, ms: seq<Member>, p: Pair, nfc: Nfc)
    requires ms != [] && EntriesOf(ps, ms[..|ms| - 1], nfc) && NormalizeMember(ms[|ms| - 1], nfc) == Done(p)
    requires Sorted(Put(ps, p)) && forall x :: x in Put(ps, p) <==> x == p || x in ps
    ensures EntriesOf(Put(ps, p), ms, nfc)
  {
    hide NormalizeMember, Put;
    var n := |ms| - 1;
    var front := ms[..n];
    forall x
      ensures x in Put(ps, p) <==> Offered(ms, nfc, x)
    {
      if x in ps {
        var i :| 0 <= i < |front| && NormalizeMember(front[i], nfc) == Done(x);
        assert NormalizeMember(ms[i], nfc) == Done(x);
      }
      if i :| 0 <= i < |ms| && NormalizeMember(ms[i], nfc) == Done(x) {
        assert i < n ==> NormalizeMember(front[i], nfc) == Done(x);
      }
    }
  }

  lemma DistinctSplit(ms: seq<Member>, nfc: Nfc)
    requires ms != []
    ensures var n := |ms| - 1;
            Distinct(ms, nfc) <==>
              && Distinct(ms[..n], nfc) && NormalizeMember(ms[n], nfc).Done?
              && !(exists i :: 0 <= i < n &&
                     NormalizeMember(ms[..n][i], nfc).value.key == NormalizeMember(ms[n], nfc).value.key)
  {
    hide NormalizeMember;
    var n := |ms| - 1;
    assert forall i :: 0 <= i < n ==> ms[..n][i] == ms[i];
  }

  /** The mapping branch of `normalize_json`: one dictionary entry for each member, in the order given. */
  method NormalizeMapping(members: seq<Member>, nfc: Nfc) returns (r: Outcome<seq<Pair>>)
    ensures r == NormalizeMembers(members, nfc)
  {
    hide NormalizeMember;
    var normalized: seq<Pair> := [];
    for i := 0 to |members|
      invariant NormalizeMembers(members[..i], nfc) == Done(normalized)
    {
      assert members[..i + 1][..i] == members[..i] && members[..i + 1][i] == members[i];
      var p := NormalizeMember(members[i], nfc);
      if p.Refused? || HasKey(normalized, p.value.key) {
        RefusedStays(members, i + 1, nfc);
        return Refused;
      }
      normalized := Put(normalized, p.value);
    }
    assert members[..|members|] == members;
    r := Done(normalized);
  }

  lemma {:induction false} RefusedStays(members: seq<Member>, i: nat, nfc: Nfc)
    requires i <= |members| && NormalizeMembers(members[..i], nfc).Refused?
    ensures NormalizeMembers(members, nfc).Refused?
  {
    if i == |members| {
      assert members[..i] == members;
    } else {
      var n := |members| - 1;
      assert members[..n][..i] == members[..i];
      RefusedStays(members[..n], i, nfc);
    }
  }

  // ---------------------------------------------------------------- what is accepted, and what it becomes

  /** No float and no other type anywhere inside, every key a string, and no two keys of one object alike in form C. */
  ghost predicate Acceptable(v: Value, nfc: Nfc)
    decreases v
  {
    match v
    case VFloat => false
    case VOther => false
    case VArray(items) => forall i :: 0 <= i < |items| ==> Acceptable(items[i], nfc)
    case VObject(members) =>
      && (forall i :: 0 <= i < |members| ==> AcceptableMember(members[i], nfc))
      && (forall i, j :: 0 <= i < j < |members| ==> nfc(KeyText(members[i])) != nfc(KeyText(members[j])))
    case _ => true
  }

  ghost predicate AcceptableMember(m: Member, nfc: Nfc)
    decreases m
  {
    m.key.TextKey? && Acceptable(m.value, nfc)
  }

  function KeyText(m: Member): string {
    if m.key.TextKey? then m.key.s else ""
  }

  /** The canonical value says what the original said: the same scalars, strings in form C, items in their order, and
      exactly the members of the object, by their keys in form C. */
  ghost predicate Means(j: Json, v: Value, nfc: Nfc)
    decreases v
  {
    match v
    case VNull => j == Null
    case VBool(b) => j == Bool(b)
    case VInt(n) => j == Int(n)
    case VText(s) => j == Text(nfc(s))
    case VArray(items) =>
      && j.Array? && |j.items| == |items|
      && forall i :: 0 <= i < |items| ==> Means(j.items[i], items[i], nfc)
    case VObject(members) =>
      && j.Object? && Sorted(j.members) && |j.members| == |members|
      && (forall i :: 0 <= i < |members| ==> MeansMember(LookUp(j.members, nfc(KeyText(members[i]))), members[i], nfc))
    case _ => false
  }

  /** What the object holds under the member's key is what the member said. */
  ghost predicate MeansMember(found: Option<Json>, m: Member, nfc: Nfc)
    decreases m
  {
    m.key.TextKey? && found.Some? && Means(found.value, m.value, nfc)
  }

  function LookUp(ps: seq<Pair>, key: string): Option<Json> {
    if ps == [] then None else if ps[0].key == key then Some(ps[0].value) else LookUp(ps[1..], key)
  }

  lemma {:induction false} LookUpFinds(ps: seq<Pair>, p: Pair)
    requires Sorted(ps) && p in ps
    ensures LookUp(ps, p.key) == Some(p.value)
  {
    LessTrichotomy(ps[0].key, ps[0].key);
    if ps[0] != p {
      var k :| 0 <= k < |ps| && ps[k] == p;
      assert Less(ps[0].key, ps[k].key);
      assert ps[1..][k - 1] == p;
      LookUpFinds(ps[1..], p);
    }
  }

  /** A value is refused exactly when it is not acceptable, and otherwise becomes a canonical value that says the
      same. */
  lemma {:induction false} NormalizeExact(v: Value, nfc: Nfc)
    ensures Normalize(v, nfc).Done? <==> Acceptable(v, nfc)
    ensures Normalize(v, nfc).Done? ==> Means(Normalize(v, nfc).value, v, nfc)
    decreases v
  {
    match v
    case VArray(items) => ItemsExact(items, nfc);
    case VObject(members) => ObjectExact(members, nfc);
    case _ =>
  }

  lemma {:induction false} ItemsExact(items: seq<Value>, nfc: Nfc)
    ensures NormalizeItems(items, nfc).Done? <==> forall i :: 0 <= i < |items| ==> Acceptable(items[i], nfc)
    ensures NormalizeItems(items, nfc).Done? ==>
              forall i :: 0 <= i < |items| ==> Means(NormalizeItems(items, nfc).value[i], items[i], nfc)
    decreases items
  {
    hide Normalize, Acceptable, Means;
    if items != [] {
      NormalizeExact(items[0], nfc);
      ItemsExact(items[1..], nfc);
      assert forall i :: 0 < i < |items| ==> items[i] == items[1..][i - 1];
    }
  }

  lemma {:induction false} MemberExact(m: Member, nfc: Nfc)
    ensures NormalizeMember(m, nfc).Done? <==> AcceptableMember(m, nfc)
    ensures NormalizeMember(m, nfc).Done? ==>
              && MeansMember(Some(NormalizeMember(m, nfc).value.value), m, nfc)
              && NormalizeMember(m, nfc).value.key == nfc(KeyText(m))
    decreases m, 0
  {
    hide Normalize, Acceptable, Means;
    NormalizeExact(m.value, nfc);
  }

  lemma {:induction false} ObjectExact(members: seq<Member>, nfc: Nfc)
    ensures NormalizeMembers(members, nfc).Done? <==> Acceptable(VObject(members), nfc)
    ensures NormalizeMembers(members, nfc).Done? ==>
              var ps := NormalizeMembers(members, nfc).value;
              && Sorted(ps) && |ps| == |members|
              && forall i :: 0 <= i < |members| ==> MeansMember(LookUp(ps, nfc(KeyText(members[i]))), members[i], nfc)
    decreases members, 1
  {
    hide NormalizeMember, NormalizeMembers, AcceptableMember, Means, LookUp, Sorted;
    MembersExact(members, nfc);
    MembersCount(members, nfc);
    forall i | 0 <= i < |members|
      ensures NormalizeMember(members[i], nfc).Done? <==> AcceptableMember(members[i], nfc)
      ensures NormalizeMember(members[i], nfc).Done? ==>
                && MeansMember(Some(NormalizeMember(members[i], nfc).value.value), members[i], nfc)
                && NormalizeMember(members[i], nfc).value.key == nfc(KeyText(members[i]))
    {
      MemberExact(members[i], nfc);
    }
    if Acceptable(VObject(members), nfc) {
      forall i, j | 0 <= i < j < |members|
        ensures NormalizeMember(members[i], nfc).value.key != NormalizeMember(members[j], nfc).value.key
      {
        assert nfc(KeyText(members[i])) != nfc(KeyText(members[j]));
      }
    }
    if NormalizeMembers(members, nfc).Done? {
      var ps := NormalizeMembers(members, nfc).value;
      forall i, j | 0 <= i < j < |members|
        ensures nfc(KeyText(members[i])) != nfc(KeyText(members[j]))
      {
        assert NormalizeMember(members[i], nfc).value.key != NormalizeMember(members[j], nfc).value.key;
      }
      forall i | 0 <= i < |members|
        ensures MeansMember(LookUp(ps, nfc(KeyText(members[i]))), members[i], nfc)
      {
        var x := NormalizeMember(members[i], nfc).value;
        assert Offered(members, nfc, x);
        LookUpFinds(ps, x);
      }
    }
  }

  lemma {:induction false} MembersCount(members: seq<Member>, nfc: Nfc)
    ensures NormalizeMembers(members, nfc).Done? ==> |NormalizeMembers(members, nfc).value| == |members|
  {
    hide NormalizeMember;
    if members != [] {
      var before := NormalizeMembers(members[..|members| - 1], nfc);
      MembersCount(members[..|members| - 1], nfc);
      if NormalizeMembers(members, nfc).Done? {
        PutCount(before.value, NormalizeMember(members[|members| - 1], nfc).value);
      }
    }
  }

  lemma {:induction false} PutCount(ps: seq<Pair>, p: Pair)
    ensures |Put(ps, p)| == |ps| + 1
  {
    if ps != [] && !Less(p.key, ps[0].key) {
      PutCount(ps[1..], p);
    }
  }

  // ---------------------------------------------------------------- normalization is idempotent

  lemma {:induction false} NormalizeNormal(v: Value, nfc: Nfc)
    requires Idempotent(nfc) && Normalize(v, nfc).Done?
    ensures Normal(Normalize(v, nfc).value, nfc)
    decreases v
  {
    match v
    case VArray(items) => ItemsNormal(items, nfc);
    case VObject(members) => MembersNormal(members, nfc);
    case _ =>
  }

  lemma {:induction false} ItemsNormal(items: seq<Value>, nfc: Nfc)
    requires Idempotent(nfc) && NormalizeItems(items, nfc).Done?
    ensures forall i :: 0 <= i < |items| ==> Normal(NormalizeItems(items, nfc).value[i], nfc)
    decreases items
  {
    hide Normal, Normalize;
    if items != [] {
      NormalizeNormal(items[0], nfc);
      ItemsNormal(items[1..], nfc);
    }
  }

  lemma {:induction false} MembersNormal(members: seq<Member>, nfc: Nfc)
    requires Idempotent(nfc) && NormalizeMembers(members, nfc).Done?
    ensures Sorted(NormalizeMembers(members, nfc).value)
    ensures forall i :: 0 <= i < |NormalizeMembers(members, nfc).value| ==>
              NormalPair(NormalizeMembers(members, nfc).value[i], nfc)
    decreases members, 1
  {
    hide NormalPair, NormalizeMember;
    var ps := NormalizeMembers(members, nfc).value;
    MembersExact(members, nfc);
    forall i | 0 <= i < |ps|
      ensures NormalPair(ps[i], nfc)
    {
      assert ps[i] in ps;
      var k :| 0 <= k < |members| && NormalizeMember(members[k], nfc) == Done(ps[i]);
      MemberNormal(members[k], nfc);
    }
  }

  lemma {:induction false} MemberNormal(m: Member, nfc: Nfc)
    requires Idempotent(nfc) && NormalizeMember(m, nfc).Done?
    ensures NormalPair(NormalizeMember(m, nfc).value, nfc)
    decreases m, 0
  {
    hide Normal, Normalize;
    NormalizeNormal(m.value, nfc);
  }

  /** A normal value is its own normalization. */
  lemma {:induction false} NormalFixed(j: Json, nfc: Nfc)
    requires Normal(j, nfc)
    ensures Normalize(ToValue(j), nfc) == Done(j)
    decreases j
  {
    match j
    case Array(items) => ItemsFixed(items, nfc);
    case Object(members) => MembersFixed(members, nfc);
    case _ =>
  }

  lemma {:induction false} ItemsFixed(items: seq<Json>, nfc: Nfc)
    requires forall i :: 0 <= i < |items| ==> Normal(items[i], nfc)
    ensures NormalizeItems(ToValues(items), nfc) == Done(items)
    decreases items
  {
    hide Normal, Normalize, ToValue;
    if items != [] {
      NormalFixed(items[0], nfc);
      ItemsFixed(items[1..], nfc);
      assert ToValues(items)[1..] == ToValues(items[1..]) && [items[0]] + items[1..] == items;
    }
  }

  lemma {:induction false} PairFixed(p: Pair, nfc: Nfc)
    requires NormalPair(p, nfc)
    ensures NormalizeMember(ToMember(p), nfc) == Done(p)
    decreases p
  {
    hide Normal, Normalize, ToValue;
    NormalFixed(p.value, nfc);
  }

  lemma {:induction false} ToMembersAt(ps: seq<Pair>)
    ensures |ToMembers(ps)| == |ps| && forall i :: 0 <= i < |ps| ==> ToMembers(ps)[i] == ToMember(ps[i])
  {
    if ps != [] {
      ToMembersAt(ps[1..]);
    }
  }

  lemma {:induction false} MembersFixed(ps: seq<Pair>, nfc: Nfc)
    requires Sorted(ps) && forall i :: 0 <= i < |ps| ==> NormalPair(ps[i], nfc)
    ensures NormalizeMembers(ToMembers(ps), nfc) == Done(ps)
    decreases ps
  {
    hide NormalPair, NormalizeMember, ToMember, NormalizeMembers, ToMembers;
    var ms := ToMembers(ps);
    ToMembersAt(ps);
    forall i | 0 <= i < |ps|
      ensures NormalizeMember(ms[i], nfc) == Done(ps[i])
    {
      PairFixed(ps[i], nfc);
    }
    forall i, j | 0 <= i < j < |ps|
      ensures ps[i].key != ps[j].key
    {
      LessTrichotomy(ps[i].key, ps[j].key);
    }
    hide Sorted;
    MembersExact(ms, nfc);
    var qs := NormalizeMembers(ms, nfc).value;
    SameEntries(ps, qs, ms, nfc);
  }

  lemma SameEntries(ps: seq<Pair>, qs: seq<Pair>, ms: seq<Member>, nfc: Nfc)
    requires Sorted(ps) && EntriesOf(qs, ms, nfc) && |ms| == |ps|
    requires forall i :: 0 <= i < |ps| ==> NormalizeMember(ms[i], nfc) == Done(ps[i])
    ensures ps == qs
  {
    hide NormalizeMember;
    forall x
      ensures x in ps <==> x in qs
    {
      if x in ps {
        var i :| 0 <= i < |ps| && ps[i] == x;
        assert NormalizeMember(ms[i], nfc) == Done(x);
      }
      if x in qs {
        var i :| 0 <= i < |ms| && NormalizeMember(ms[i], nfc) == Done(x);
        assert ps[i] == x;
      }
    }
    SortedUnique(ps, qs);
  }

  /** Normalizing twice is normalizing once. */
  lemma NormalizeIdempotent(v: Value, nfc: Nfc)
    requires Idempotent(nfc) && Normalize(v, nfc).Done?
    ensures Normalize(ToValue(Normalize(v, nfc).value), nfc) == Normalize(v, nfc)
  {
    hide Normal, Normalize, ToValue;
    NormalizeNormal(v, nfc);
    NormalFixed(Normalize(v, nfc).value, nfc);
  }

  // ---------------------------------------------------------------- identity

  /** `object_pairs` on every decoded object: keys in form C, none twice. */
  function Hooked(v: Value, nfc: Nfc): Outcome<Value>
    decreases v
  {
    match v
    case VArray(items) =>
      (match HookedItems(items, nfc)
       case Refused => Refused
       case Done(vs) => Done(VArray(vs)))
    case VObject(members) =>
      (match HookedMembers(members, nfc)
       case Refused => Refused
       case Done(ms) => Done(VObject(ms)))
    case _ => Done(v)
  }

  function HookedItems(items: seq<Value>, nfc: Nfc): Outcome<seq<Value>>
    decreases items
  {
    if items == [] then Done([])
    else
      var first, rest := Hooked(items[0], nfc), HookedItems(items[1..], nfc);
      if first.Refused? || rest.Refused? then Refused else Done([first.value] + rest.value)
  }

  function HookedMember(m: Member, nfc: Nfc): Outcome<Member>
    decreases m
  {
    if m.key.OtherKey? then Refused
    else
      match Hooked(m.value, nfc)
      case Refused => Refused
      case Done(v) => Done(Member(TextKey(nfc(m.key.s)), v))
  }

  predicate Taken(ms: seq<Member>, key: Key) {
    exists i :: 0 <= i < |ms| && ms[i].key == key
  }

  function HookedMembers(members: seq<Member>, nfc: Nfc): Outcome<seq<Member>>
    decreases members
  {
    if members == [] then Done([])
    else
      var last := |members| - 1;
      var before, m := HookedMembers(members[..last], nfc), HookedMember(members[last], nfc);
      if before.Refused? || m.Refused? || Taken(before.value, m.value.key) then Refused
      else Done(before.value + [m.value])
  }

  /** `parse_canonical_json` */
  function ParseCanonical(text: string, nfc: Nfc): Outcome<Json> {
    match Read(text)
    case None => Refused
    case Some(v) =>
      match Hooked(v, nfc)
      case Refused => Refused
      case Done(w) => Normalize(w, nfc)
  }

  /** Parsing any text is reading it and normalizing what was read: the hook that rejects repeated keys before they are
      lost, and rewrites keys, changes neither the outcome nor the value. */
  lemma ParseNormalizes(text: string, nfc: Nfc)
    requires Idempotent(nfc)
    ensures ParseCanonical(text, nfc) == match Read(text) case None => Refused case Some(v) => Normalize(v, nfc)
  {
    hide Hooked, Normalize;
    if Read(text).Some? {
      HookTransparent(Read(text).value, nfc);
    }
  }

  lemma {:induction false} HookTransparent(v: Value, nfc: Nfc)
    requires Idempotent(nfc)
    ensures Hooked(v, nfc).Refused? ==> Normalize(v, nfc).Refused?
    ensures Hooked(v, nfc).Done? ==> Normalize(Hooked(v, nfc).value, nfc) == Normalize(v, nfc)
    decreases v
  {
    match v
    case VArray(items) => HookItemsTransparent(items, nfc);
    case VObject(members) => HookMembersTransparent(members, nfc);
    case _ =>
  }

  lemma {:induction false} HookItemsTransparent(items: seq<Value>, nfc: Nfc)
    requires Idempotent(nfc)
    ensures HookedItems(items, nfc).Refused? ==> NormalizeItems(items, nfc).Refused?
    ensures HookedItems(items, nfc).Done? ==>
              NormalizeItems(HookedItems(items, nfc).value, nfc) == NormalizeItems(items, nfc)
    decreases items
  {
    hide Hooked, Normalize;
    if items != [] {
      HookTransparent(items[0], nfc);
      HookItemsTransparent(items[1..], nfc);
      if HookedItems(items, nfc).Done? {
        var first, rest := Hooked(items[0], nfc).value, HookedItems(items[1..], nfc).value;
        assert ([first] + rest)[1..] == rest;
      }
    }
  }

  lemma {:induction false} HookMemberTransparent(m: Member, nfc: Nfc)
    requires Idempotent(nfc)
    ensures HookedMember(m, nfc).Refused? ==> NormalizeMember(m, nfc).Refused?
    ensures HookedMember(m, nfc).Done? ==>
              NormalizeMember(HookedMember(m, nfc).value, nfc) == NormalizeMember(m, nfc)
              && HookedMember(m, nfc).value.key == TextKey(nfc(KeyText(m)))
    decreases m, 0
  {
    hide Hooked, Normalize;
    HookTransparent(m.value, nfc);
  }

  lemma {:induction false} HookMembersTransparent(members: seq<Member>, nfc: Nfc)
    requires Idempotent(nfc)
    ensures HookedMembers(members, nfc).Refused? ==> NormalizeMembers(members, nfc).Refused?
    ensures HookedMembers(members, nfc).Done? ==>
              var ws := HookedMembers(members, nfc).value;
              && NormalizeMembers(ws, nfc) == NormalizeMembers(members, nfc) && |ws| == |members|
              && forall i :: 0 <= i < |members| ==> ws[i].key == TextKey(nfc(KeyText(members[i])))
    decreases members, 1
  {
    hide HookedMember, NormalizeMember, Put, HasKey;
    if members != [] {
      var n := |members| - 1;
      var front := members[..n];
      HookMembersTransparent(front, nfc);
      HookMemberTransparent(members[n], nfc);
      var before, m := HookedMembers(front, nfc), HookedMember(members[n], nfc);
      if before.Done? && m.Done? {
        if Taken(before.value, m.value.key) {
          var i :| 0 <= i < |before.value| && before.value[i].key == m.value.key;
          RepeatedRefused(members, i, n, nfc);
        } else {
          LastMember(before.value, m.value, members, nfc);
        }
      }
    }
  }

  /** Lists whose fronts and whose last members normalize alike normalize alike. */
  lemma LastMember(ws: seq<Member>, m: Member, members: seq<Member>, nfc: Nfc)
    requires members != [] && NormalizeMembers(ws, nfc) == NormalizeMembers(members[..|members| - 1], nfc)
    requires NormalizeMember(m, nfc) == NormalizeMember(members[|members| - 1], nfc)
    ensures NormalizeMembers(ws + [m], nfc) == NormalizeMembers(members, nfc)
  {
    hide NormalizeMember, Put, HasKey;
    assert (ws + [m])[..|ws|] == ws;
  }

  lemma RepeatedRefused(members: seq<Member>, i: nat, j: nat, nfc: Nfc)
    requires i < j < |members| && nfc(KeyText(members[i])) == nfc(KeyText(members[j]))
    ensures NormalizeMembers(members, nfc).Refused?
  {
    ObjectExact(members, nfc);
    hide NormalizeMembers;
  }

  lemma {:induction false} HookFixed(j: Json, nfc: Nfc)
    requires Normal(j, nfc)
    ensures Hooked(ToValue(j), nfc) == Done(ToValue(j))
    decreases j
  {
    match j
    case Array(items) => HookItemsFixed(items, nfc);
    case Object(members) => HookMembersFixed(members, nfc);
    case _ =>
  }

  lemma {:induction false} HookItemsFixed(items: seq<Json>, nfc: Nfc)
    requires forall i :: 0 <= i < |items| ==> Normal(items[i], nfc)
    ensures HookedItems(ToValues(items), nfc) == Done(ToValues(items))
    decreases items
  {
    hide Normal, Hooked, ToValue;
    if items != [] {
      HookFixed(items[0], nfc);
      HookItemsFixed(items[1..], nfc);
      assert ToValues(items)[1..] == ToValues(items[1..]);
    }
  }

  lemma {:induction false} HookPairFixed(p: Pair, nfc: Nfc)
    requires NormalPair(p, nfc)
    ensures HookedMember(ToMember(p), nfc) == Done(ToMember(p))
    decreases p
  {
    hide Normal, Hooked, ToValue;
    HookFixed(p.value, nfc);
  }

  lemma {:induction false} HookMembersFixed(ps: seq<Pair>, nfc: Nfc)
    requires Sorted(ps) && forall i :: 0 <= i < |ps| ==> NormalPair(ps[i], nfc)
    ensures HookedMembers(ToMembers(ps), nfc) == Done(ToMembers(ps))
    decreases ps
  {
    hide NormalPair, HookedMember, ToMembers;
    ToMembersAt(ps);
    if ps != [] {
      var n := |ps| - 1;
      var front, ms := ps[..n], ToMembers(ps);
      ToMembersAt(front);
      assert ms[..n] == ToMembers(front);
      HookMembersFixed(front, nfc);
      HookPairFixed(ps[n], nfc);
      forall i | 0 <= i < n
        ensures ms[..n][i].key != ms[n].key
      {
        LessTrichotomy(ps[i].key, ps[n].key);
      }
      assert ms == ms[..n] + [ms[n]];
    }
  }

  /** Canonical text is read back as the normalized value it was made from. */
  lemma CanonicalRoundTrip(v: Value, nfc: Nfc)
    requires Idempotent(nfc) && CanonicalText(v, nfc).Done?
    ensures ParseCanonical(CanonicalText(v, nfc).value, nfc) == Normalize(v, nfc)
  {
    hide Normal, Normalize, ToValue, Hooked, Print, Read;
    var j := Normalize(v, nfc).value;
    NormalizeNormal(v, nfc);
    DocumentRoundTrip(j);
    HookFixed(j, nfc);
    NormalFixed(j, nfc);
  }

  /** Canonical text is an identity: two values have the same text exactly when they normalize to the
      same value. */
  lemma TextIsIdentity(v: Value, w: Value, nfc: Nfc)
    requires Idempotent(nfc) && CanonicalText(v, nfc).Done? && CanonicalText(w, nfc).Done?
    ensures CanonicalText(v, nfc) == CanonicalText(w, nfc) <==> Normalize(v, nfc) == Normalize(w, nfc)
  {
    hide Normalize, ParseCanonical, Print;
    CanonicalRoundTrip(v, nfc);
    CanonicalRoundTrip(w, nfc);
  }

  /** `order` lists every index below `n` once. */
  ghost predicate Permutation(order: seq<nat>, n: nat) {
    && |order| == n
    && (forall i :: 0 <= i < n ==> order[i] < n)
    && (forall i, j :: 0 <= i < j < n ==> order[i] != order[j])
    && (forall k: nat :: k < n ==> k in order)
  }

  /** The same value with the members of its objects, at any depth, in another order. */
  ghost predicate Shuffled(v: Value, w: Value)
    decreases v
  {
    match v
    case VArray(items) =>
      w.VArray? && |w.items| == |items| && forall i :: 0 <= i < |items| ==> Shuffled(items[i], w.items[i])
    case VObject(ms) =>
      w.VObject? && |w.members| == |ms|
      && exists order: seq<nat> :: Permutation(order, |ms|)
           && forall i :: 0 <= i < |ms| ==> ShuffledMember(ms[order[i]], w.members[i])
    case _ => w == v
  }

  ghost predicate ShuffledMember(m: Member, m': Member)
    decreases m
  {
    m'.key == m.key && Shuffled(m.value, m'.value)
  }

  /** Key order is irrelevant: shuffling members anywhere inside a value changes neither its
      normalization nor its text, nor whether it is refused. */
  lemma {:induction false} KeyOrderIrrelevant(v: Value, w: Value, nfc: Nfc)
    requires Shuffled(v, w)
    ensures Normalize(w, nfc) == Normalize(v, nfc) && CanonicalText(w, nfc) == CanonicalText(v, nfc)
    decreases v
  {
    match v
    case VArray(items) => ItemsShuffled(items, w.items, nfc);
    case VObject(ms) =>
      var order: seq<nat> :| Permutation(order, |ms|)
                             && forall i :: 0 <= i < |ms| ==> ShuffledMember(ms[order[i]], w.members[i]);
      forall i | 0 <= i < |ms|
        ensures NormalizeMember(w.members[i], nfc) == NormalizeMember(ms[order[i]], nfc)
      {
        MemberShuffled(ms[order[i]], w.members[i], nfc);
      }
      hide NormalizeMember, NormalizeMembers;
      MembersReordered(ms, w.members, order, nfc);
    case _ =>
  }

  lemma {:induction false} ItemsShuffled(items: seq<Value>, items': seq<Value>, nfc: Nfc)
    requires |items'| == |items| && forall i :: 0 <= i < |items| ==> Shuffled(items[i], items'[i])
    ensures NormalizeItems(items', nfc) == NormalizeItems(items, nfc)
    decreases items
  {
    hide Shuffled, Normalize;
    if items != [] {
      KeyOrderIrrelevant(items[0], items'[0], nfc);
      ItemsShuffled(items[1..], items'[1..], nfc);
    }
  }

  lemma {:induction false} MemberShuffled(m: Member, m': Member, nfc: Nfc)
    requires ShuffledMember(m, m')
    ensures NormalizeMember(m', nfc) == NormalizeMember(m, nfc)
    decreases m
  {
    hide Shuffled, Normalize;
    KeyOrderIrrelevant(m.value, m'.value, nfc);
  }

  lemma MembersReordered(ms: seq<Member>, ms': seq<Member>, order: seq<nat>, nfc: Nfc)
    requires Permutation(order, |ms|) && |ms'| == |ms|
    requires forall i :: 0 <= i < |ms| ==> NormalizeMember(ms'[i], nfc) == NormalizeMember(ms[order[i]], nfc)
    ensures NormalizeMembers(ms', nfc) == NormalizeMembers(ms, nfc)
  {
    hide NormalizeMember, NormalizeMembers;
    MembersExact(ms, nfc);
    MembersExact(ms', nfc);
    DistinctReordered(ms, ms', order, nfc);
    if Distinct(ms, nfc) {
      forall x
        ensures Offered(ms, nfc, x) <==> Offered(ms', nfc, x)
      {
        OfferedReordered(ms, ms', order, nfc, x);
      }
      hide Offered, Sorted;
      SortedUnique(NormalizeMembers(ms, nfc).value, NormalizeMembers(ms', nfc).value);
    }
  }

  lemma Position(order: seq<nat>, n: nat, k: nat) returns (p: nat)
    requires Permutation(order, n) && k < n
    ensures p < n && order[p] == k
  {
    assert k in order;
    p :| p < |order| && order[p] == k;
  }

  lemma DistinctReordered(ms: seq<Member>, ms': seq<Member>, order: seq<nat>, nfc: Nfc)
    requires Permutation(order, |ms|) && |ms'| == |ms|
    requires forall i :: 0 <= i < |ms| ==> NormalizeMember(ms'[i], nfc) == NormalizeMember(ms[order[i]], nfc)
    ensures Distinct(ms, nfc) <==> Distinct(ms', nfc)
  {
    hide NormalizeMember;
    forall i, j | 0 <= i < j < |ms| && Distinct(ms, nfc)
      ensures NormalizeMember(ms'[i], nfc).value.key != NormalizeMember(ms'[j], nfc).value.key
    {
      var a, b := order[i], order[j];
      assert a < b || b < a;
    }
    if Distinct(ms', nfc) {
      forall i: nat | i < |ms|
        ensures NormalizeMember(ms[i], nfc).Done?
      {
        var k := Position(order, |ms|, i);
        assert NormalizeMember(ms'[k], nfc) == NormalizeMember(ms[i], nfc);
      }
      forall i: nat, j: nat | i < j < |ms|
        ensures NormalizeMember(ms[i], nfc).value.key != NormalizeMember(ms[j], nfc).value.key
      {
        var a := Position(order, |ms|, i);
        var b := Position(order, |ms|, j);
        assert NormalizeMember(ms'[a], nfc) == NormalizeMember(ms[i], nfc)
               && NormalizeMember(ms'[b], nfc) == NormalizeMember(ms[j], nfc);
        assert a < b || b < a;
      }
    }
  }

  lemma OfferedReordered(ms: seq<Member>, ms': seq<Member>, order: seq<nat>, nfc: Nfc, x: Pair)
    requires Permutation(order, |ms|) && |ms'| == |ms|
    requires forall i :: 0 <= i < |ms| ==> NormalizeMember(ms'[i], nfc) == NormalizeMember(ms[order[i]], nfc)
    ensures Offered(ms, nfc, x) <==> Offered(ms', nfc, x)
  {
    hide NormalizeMember;
    if Offered(ms, nfc, x) {
      var i: nat :| i < |ms| && NormalizeMember(ms[i], nfc) == Done(x);
      var k := Position(order, |ms|, i);
      assert NormalizeMember(ms'[k], nfc) == Done(x);
    }
    if Offered(ms', nfc, x) {
      var i :| 0 <= i < |ms'| && NormalizeMember(ms'[i], nfc) == Done(x);
      assert NormalizeMember(ms[order[i]], nfc) == Done(x);
    }
  }

  // ---------------------------------------------------------------- frozen descriptors

  /** A deep-frozen value: tuples for lists, read-only proxies for dictionaries. */
  datatype Frozen = Atom(value: Json) | Tuple(items: seq<Frozen>) | Proxy(members: seq<FrozenPair>)

  datatype FrozenPair = FrozenPair(key: string, value: Frozen)

  function Freeze(j: Json): Frozen
    decreases j
  {
    match j
    case Array(items) => Tuple(FreezeItems(items))
    case Object(members) => Proxy(FreezeMembers(members))
    case _ => Atom(j)
  }

  function FreezeItems(items: seq<Json>): seq<Frozen>
    decreases items
  {
    if items == [] then [] else [Freeze(items[0])] + FreezeItems(items[1..])
  }

  function FreezePair(p: Pair): FrozenPair
    decreases p
  {
    FrozenPair(p.key, Freeze(p.value))
  }

  function FreezeMembers(members: seq<Pair>): seq<FrozenPair>
    decreases members
  {
    if members == [] then [] else [FreezePair(members[0])] + FreezeMembers(members[1..])
  }

  function FreezeJson(v: Value, nfc: Nfc): Outcome<Frozen> {
    match Normalize(v, nfc)
    case Refused => Refused
    case Done(j) => Done(Freeze(j))
  }

  function Thaw(f: Frozen): Json
    decreases f
  {
    match f
    case Atom(j) => j
    case Tuple(items) => Array(ThawItems(items))
    case Proxy(members) => Object(ThawMembers(members))
  }

  function ThawItems(items: seq<Frozen>): seq<Json>
    decreases items
  {
    if items == [] then [] else [Thaw(items[0])] + ThawItems(items[1..])
  }

  function ThawPair(p: FrozenPair): Pair
    decreases p
  {
    Pair(p.key, Thaw(p.value))
  }

  function ThawMembers(members: seq<FrozenPair>): seq<Pair>
    decreases members
  {
    if members == [] then [] else [ThawPair(members[0])] + ThawMembers(members[1..])
  }

  lemma {:induction false} ThawFreeze(j: Json)
    ensures Thaw(Freeze(j)) == j
    decreases j
  {
    match j
    case Array(items) => ThawFreezeItems(items);
    case Object(members) => ThawFreezeMembers(members);
    case _ =>
  }

  lemma {:induction false} ThawFreezeItems(items: seq<Json>)
    ensures ThawItems(FreezeItems(items)) == items
    decreases items
  {
    hide Thaw, Freeze;
    if items != [] {
      ThawFreeze(items[0]);
      ThawFreezeItems(items[1..]);
      assert FreezeItems(items)[1..] == FreezeItems(items[1..]) && [items[0]] + items[1..] == items;
    }
  }

  lemma {:induction false} ThawFreezePair(p: Pair)
    ensures ThawPair(FreezePair(p)) == p
    decreases p
  {
    ThawFreeze(p.value);
  }

  lemma {:induction false} ThawFreezeMembers(members: seq<Pair>)
    ensures ThawMembers(FreezeMembers(members)) == members
    decreases members
  {
    hide ThawPair, FreezePair;
    if members != [] {
      ThawFreezePair(members[0]);
      ThawFreezeMembers(members[1..]);
      assert FreezeMembers(members)[1..] == FreezeMembers(members[1..]) && [members[0]] + members[1..] == members;
    }
  }

  /** Thawing a frozen value gives its normalization. */
  lemma ThawOfFrozen(v: Value, nfc: Nfc)
    requires FreezeJson(v, nfc).Done?
    ensures Done(Thaw(FreezeJson(v, nfc).value)) == Normalize(v, nfc)
  {
    ThawFreeze(Normalize(v, nfc).value);
  }
}
