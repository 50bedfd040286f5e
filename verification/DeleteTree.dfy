/**
 What deleting a list of entities would do to the rows that refer to them, and whether a
 request to delete them is carried out.
 */
module DeleteTree {
  import opened Wrappers
  import opened DependentEntities

  /** An entity: its class and the values of its identifier columns. */
  datatype Entity = Entity(cls: string, key: seq<string>)

  /** One identifier column of an entity. */
  datatype Part = Part(cls: string, index: nat, column: string, value: string)

  /** Rows of a table refer to a part of an entity's key; action is what the constraint does to them. */
  datatype Finding = Finding(part: Part, table: string, action: OnDelete)

  datatype Message =
    | CascadeTo(table: string, dependents: seq<string>)
    | DanglingIn(table: string)
    | StillReferenced(column: string, value: string, table: string)

  /** How many rows of a table have the given value in the given column. */
  type Count = (string, string, string) -> nat

  // ----- the findings on one entity, in the order of the nested loops

  function Found(count: Count, p: Part, table: string, k: Constraint): seq<Finding> {
    if k.targetColumn == p.column && k.target == p.cls && count(table, k.column, p.value) > 0
    then [Finding(p, table, k.action)] else []
  }

  function InTable(count: Count, p: Part, table: string, ks: seq<Constraint>): seq<Finding> {
    if ks == [] then []
    else
      var last := |ks| - 1;
      InTable(count, p, table, ks[..last]) + Found(count, p, table, ks[last])
  }

  function InRelations(count: Count, p: Part, rel: Relations): seq<Finding> {
    if rel == [] then []
    else
      var last := |rel| - 1;
      InRelations(count, p, rel[..last]) + InTable(count, p, rel[last].name, rel[last].constraints)
  }

  function PartOf(e: Entity, columns: seq<string>, i: nat): Part
    requires i < |columns| && |columns| <= |e.key|
  {
    Part(e.cls, i, columns[i], e.key[i])
  }

  function Findings(count: Count, rel: Relations, columns: seq<string>, e: Entity): seq<Finding>
    requires |columns| <= |e.key|
  {
    if columns == [] then []
    else
      var last := |columns| - 1;
      Findings(count, rel, columns[..last], e) + InRelations(count, PartOf(e, columns, last), rel)
  }

  lemma {:induction false} TablePrefix(count: Count, p: Part, table: string, ks: seq<Constraint>, k: nat)
    returns (rest: seq<Finding>)
    requires k <= |ks|
    ensures InTable(count, p, table, ks) == InTable(count, p, table, ks[..k]) + rest
    decreases |ks|
  {
    if k == |ks| {
      assert ks[..k] == ks;
      rest := [];
    } else {
      var last := |ks| - 1;
      assert ks[..last][..k] == ks[..k];
      var r := TablePrefix(count, p, table, ks[..last], k);
      rest := r + Found(count, p, table, ks[last]);
    }
  }

  lemma {:induction false} RelationsPrefix(count: Count, p: Part, rel: Relations, j: nat) returns (rest: seq<Finding>)
    requires j <= |rel|
    ensures InRelations(count, p, rel) == InRelations(count, p, rel[..j]) + rest
    decreases |rel|
  {
    if j == |rel| {
      assert rel[..j] == rel;
      rest := [];
    } else {
      var last := |rel| - 1;
      assert rel[..last][..j] == rel[..j];
      var r := RelationsPrefix(count, p, rel[..last], j);
      rest := r + InTable(count, p, rel[last].name, rel[last].constraints);
    }
  }

  lemma {:induction false} FindingsPrefix(count: Count, rel: Relations, columns: seq<string>, e: Entity, i: nat)
    returns (rest: seq<Finding>)
    requires i <= |columns| <= |e.key|
    ensures Findings(count, rel, columns, e) == Findings(count, rel, columns[..i], e) + rest
    decreases |columns|
  {
    if i == |columns| {
      assert columns[..i] == columns;
      rest := [];
    } else {
      var last := |columns| - 1;
      assert columns[..last][..i] == columns[..i];
      var r := FindingsPrefix(count, rel, columns[..last], e, i);
      rest := r + InRelations(count, PartOf(e, columns, last), rel);
    }
  }

  // ----- restrictions and notes

  /** The first finding that forbids the deletion. */
  function FirstRestriction(fs: seq<Finding>): Option<Finding> {
    if fs == [] then None
    else if fs[0].action == Restrict then Some(fs[0])
    else FirstRestriction(fs[1..])
  }

  function Note(f: Finding): seq<Finding> {
    if f.action == Cascade || f.action == SetNull then [f] else []
  }

  /** The findings that are worth a message although they forbid nothing. */
  function Notes(fs: seq<Finding>): seq<Finding> {
    if fs == [] then [] else Note(fs[0]) + Notes(fs[1..])
  }

  lemma {:induction false} FirstRestrictionAppend(a: seq<Finding>, b: seq<Finding>)
    ensures FirstRestriction(a + b) == if FirstRestriction(a).Some? then FirstRestriction(a) else FirstRestriction(b)
  {
    if a == [] {
      assert a + b == b;
    } else {
      assert (a + b)[1..] == a[1..] + b;
      FirstRestrictionAppend(a[1..], b);
    }
  }

  lemma {:induction false} NotesAppend(a: seq<Finding>, b: seq<Finding>)
    ensures Notes(a + b) == Notes(a) + Notes(b)
  {
    if a == [] {
      assert a + b == b;
    } else {
      assert (a + b)[1..] == a[1..] + b && (a + b)[0] == a[0];
      NotesAppend(a[1..], b);
      calc {
        Notes(a + b);
        Note(a[0]) + Notes(a[1..] + b);
        Note(a[0]) + (Notes(a[1..]) + Notes(b));
        Notes(a) + Notes(b);
      }
    }
  }

  lemma {:induction false} RestrictionIffFound(fs: seq<Finding>)
    ensures FirstRestriction(fs).Some? <==> exists f :: f in fs && f.action == Restrict
    ensures FirstRestriction(fs).Some? ==>
              FirstRestriction(fs).value in fs && FirstRestriction(fs).value.action == Restrict
  {
    if fs != [] {
      RestrictionIffFound(fs[1..]);
      assert forall f :: f in fs <==> f == fs[0] || f in fs[1..];
    }
  }

  predicate Blocking(fs: seq<Finding>) {
    FirstRestriction(fs).Some?
  }

  /** The row of key values: cut off after the column in which the first restriction was found. */
  function Row(key: seq<string>, fs: seq<Finding>): seq<string> {
    var r := FirstRestriction(fs);
    if r.Some? && r.value.part.index < |key| then key[..r.value.part.index + 1] else key
  }

  /** What is told after an entity with the given findings. */
  function ToldAfter(told: seq<Finding>, fs: seq<Finding>): seq<Finding> {
    var r := FirstRestriction(fs);
    if r.Some? then [r.value] else told + Notes(fs)
  }

  /** The findings that the messages are about, given those on each entity. */
  function Told(fss: seq<seq<Finding>>): seq<Finding> {
    if fss == [] then []
    else ToldAfter(Told(fss[..|fss| - 1]), fss[|fss| - 1])
  }

  ghost predicate Tells(rel: Relations, m: Message, f: Finding) {
    match f.action
    case Cascade => m.CascadeTo? && m.table == f.table && ListsDependents(rel, f.table, m.dependents)
    case SetNull => m == DanglingIn(f.table)
    case Restrict => m == StillReferenced(f.part.column, f.part.value, f.table)
    case OtherAction => false
  }

  ghost predicate TellsAll(rel: Relations, ms: seq<Message>, fs: seq<Finding>) {
    |ms| == |fs| && forall i :: 0 <= i < |ms| ==> Tells(rel, ms[i], fs[i])
  }

  /** The findings that are looked at: those before the first restriction. */
  function Consulted(fs: seq<Finding>): seq<Finding> {
    if fs == [] || fs[0].action == Restrict then [] else [fs[0]] + Consulted(fs[1..])
  }

  /** The search for dependent classes that a finding asks for, if any, ends. */
  ghost predicate Terminates(rel: Relations, f: Finding) {
    f.action == Cascade ==> !Edge(rel, f.table, f.table)
  }

  ghost predicate AllTerminate(rel: Relations, fs: seq<Finding>) {
    forall f :: f in Consulted(fs) ==> Terminates(rel, f)
  }

  // ----- one entity

  ghost predicate Clean(fs: seq<Finding>) {
    FirstRestriction(fs).None?
  }

  /** The findings up to constraint k of table j for column i. */
  ghost function SoFar(count: Count, rel: Relations, columns: seq<string>, e: Entity, i: nat, j: nat,
                       k: nat): seq<Finding>
    requires i < |columns| <= |e.key| && j < |rel| && k <= |rel[j].constraints|
  {
    Findings(count, rel, columns[..i], e) + InRelations(count, PartOf(e, columns, i), rel[..j])
    + InTable(count, PartOf(e, columns, i), rel[j].name, rel[j].constraints[..k])
  }

  lemma SoFarStep(count: Count, rel: Relations, columns: seq<string>, e: Entity, i: nat, j: nat, k: nat)
    requires i < |columns| <= |e.key| && j < |rel| && k < |rel[j].constraints|
    ensures SoFar(count, rel, columns, e, i, j, k + 1)
         == SoFar(count, rel, columns, e, i, j, k) +
             Found(count, PartOf(e, columns, i), rel[j].name, rel[j].constraints[k])
  {
    var ks := rel[j].constraints;
    assert ks[..k + 1][..k] == ks[..k];
  }

  lemma RelationsStep(count: Count, p: Part, rel: Relations, j: nat)
    requires j < |rel|
    ensures InRelations(count, p, rel[..j + 1])
         == InRelations(count, p, rel[..j]) + InTable(count, p, rel[j].name, rel[j].constraints)
  {
    assert rel[..j + 1][..j] == rel[..j];
  }

  lemma FindingsStep(count: Count, rel: Relations, columns: seq<string>, e: Entity, i: nat)
    requires i < |columns| <= |e.key|
    ensures Findings(count, rel, columns[..i + 1], e)
         == Findings(count, rel, columns[..i], e) + InRelations(count, PartOf(e, columns, i), rel)
  {
    assert columns[..i + 1][..i] == columns[..i];
  }

  lemma Regroup<T>(f: seq<T>, r: seq<T>, t: seq<T>, r0: seq<T>, r1: seq<T>, r2: seq<T>)
    ensures f + (r + (t + r0) + r1) + r2 == (f + r + t) + (r0 + r1 + r2)
  {
  }

  /** The findings so far are where the findings on the entity begin. */
  lemma SoFarPrefix(count: Count, rel: Relations, columns: seq<string>, e: Entity, i: nat, j: nat, k: nat)
    returns (rest: seq<Finding>)
    requires i < |columns| <= |e.key| && j < |rel| && k <= |rel[j].constraints|
    ensures Findings(count, rel, columns, e) == SoFar(count, rel, columns, e, i, j, k) + rest
  {
    var p := PartOf(e, columns, i);
    var r0 := TablePrefix(count, p, rel[j].name, rel[j].constraints, k);
    RelationsStep(count, p, rel, j);
    var r1 := RelationsPrefix(count, p, rel, j + 1);
    FindingsStep(count, rel, columns, e, i);
    var r2 := FindingsPrefix(count, rel, columns, e, i + 1);
    Regroup(Findings(count, rel, columns[..i], e), InRelations(count, p, rel[..j]),
            InTable(count, p, rel[j].name, rel[j].constraints[..k]), r0, r1, r2);
    rest := r0 + r1 + r2;
  }

  lemma StopHere(count: Count, rel: Relations, columns: seq<string>, e: Entity, i: nat, j: nat, k: nat, f: Finding)
    requires i < |columns| <= |e.key| && j < |rel| && k < |rel[j].constraints|
    requires Clean(SoFar(count, rel, columns, e, i, j, k)) && f.action == Restrict
    requires Found(count, PartOf(e, columns, i), rel[j].name, rel[j].constraints[k]) == [f]
    ensures FirstRestriction(Findings(count, rel, columns, e)) == Some(f)
  {
    SoFarStep(count, rel, columns, e, i, j, k);
    var rest := SoFarPrefix(count, rel, columns, e, i, j, k + 1);
    FirstRestrictionAppend(SoFar(count, rel, columns, e, i, j, k), [f]);
    FirstRestrictionAppend(SoFar(count, rel, columns, e, i, j, k) + [f], rest);
  }

  lemma GoOn(sofar: seq<Finding>, found: seq<Finding>)
    requires Clean(sofar) && |found| <= 1 && (found != [] ==> found[0].action != Restrict)
    ensures Clean(sofar + found)
    ensures Notes(sofar + found) == Notes(sofar) + (if found != [] then Note(found[0]) else [])
  {
    FirstRestrictionAppend(sofar, found);
    NotesAppend(sofar, found);
    if found != [] {
      assert found == [found[0]];
    }
  }

  lemma {:induction false} ConsultedBefore(a: seq<Finding>, f: Finding, b: seq<Finding>)
    requires Clean(a) && f.action != Restrict
    ensures f in Consulted(a + ([f] + b))
  {
    if a == [] {
      assert a + ([f] + b) == [f] + b;
    } else {
      assert (a + ([f] + b))[1..] == a[1..] + ([f] + b);
      ConsultedBefore(a[1..], f, b);
    }
  }

  lemma ConsultedNow(rel: Relations, sofar: seq<Finding>, found: seq<Finding>, rest: seq<Finding>, all: seq<Finding>)
    requires Clean(sofar) && |found| <= 1 && all == (sofar + found) + rest && AllTerminate(rel, all)
    ensures forall f :: f in found ==> Terminates(rel, f)
  {
    if found != [] && found[0].action != Restrict {
      assert found == [found[0]];
      assert all == sofar + ([found[0]] + rest);
      ConsultedBefore(sofar, found[0], rest);
    }
  }

  /** A constraint that is reached asks only for a search that ends. */
  lemma MayAsk(count: Count, rel: Relations, columns: seq<string>, e: Entity, i: nat, j: nat, k: nat)
    requires i < |columns| <= |e.key| && j < |rel| && k < |rel[j].constraints|
    requires AllTerminate(rel, Findings(count, rel, columns, e)) && Clean(SoFar(count, rel, columns, e, i, j, k))
    ensures forall f :: f in Found(count, PartOf(e, columns, i), rel[j].name, rel[j].constraints[k]) ==>
              Terminates(rel, f)
  {
    SoFarStep(count, rel, columns, e, i, j, k);
    var rest := SoFarPrefix(count, rel, columns, e, i, j, k + 1);
    ConsultedNow(rel, SoFar(count, rel, columns, e, i, j, k),
        Found(count, PartOf(e, columns, i), rel[j].name, rel[j].constraints[k]),
                 rest, Findings(count, rel, columns, e));
  }

  ghost predicate ToldSoFar(rel: Relations, messages: seq<Message>, told: seq<Finding>, sofar: seq<Finding>) {
    Clean(sofar) && TellsAll(rel, messages, told + Notes(sofar))
  }

  /** The case distinction on one constraint: a restriction replaces all messages and stops. */
  method CheckConstraint(p: Part, table: string, constraint: Constraint, rel: Relations, count: Count,
                         messages0: seq<Message>,
                         ghost told: seq<Finding>, ghost sofar: seq<Finding>)
    returns (stop: bool, messages: seq<Message>)
    requires ToldSoFar(rel, messages0, told, sofar)
    requires forall f :: f in Found(count, p, table, constraint) ==> Terminates(rel, f)
    ensures stop ==> Found(count, p, table, constraint) == [Finding(p, table, Restrict)]
    ensures stop ==> messages == [StillReferenced(p.column, p.value, table)]
    ensures !stop ==> ToldSoFar(rel, messages, told, sofar + Found(count, p, table, constraint))
  {
    stop, messages := false, messages0;
    ghost var found := Found(count, p, table, constraint);
    if constraint.targetColumn == p.column && constraint.target == p.cls &&
        count(table, constraint.column, p.value) > 0 {
      match constraint.action {
        case Cascade =>
          assert found == [Finding(p, table, Cascade)] && found[0] in found;
          var dependents := GetDependentEntities(table, rel);
          messages := messages + [CascadeTo(table, dependents)];
        case SetNull =>
          messages := messages + [DanglingIn(table)];
        case Restrict =>
          return true, [StillReferenced(p.column, p.value, table)];
        case OtherAction =>
      }
    }
    GoOn(sofar, found);
    assert told + (Notes(sofar) + found) == (told + Notes(sofar)) + found;
  }

  lemma BeginColumn(count: Count, rel: Relations, columns: seq<string>, e: Entity, i: nat)
    requires i < |columns| <= |e.key|
    ensures Findings(count, rel, columns[..i], e)
         == Findings(count, rel, columns[..i], e) + InRelations(count, PartOf(e, columns, i), rel[..0])
  {
    assert rel[..0] == [];
  }

  lemma EndColumn(count: Count, rel: Relations, columns: seq<string>, e: Entity, i: nat)
    requires i < |columns| <= |e.key|
    ensures Findings(count, rel, columns[..i + 1], e)
         == Findings(count, rel, columns[..i], e) + InRelations(count, PartOf(e, columns, i), rel[..|rel|])
  {
    assert rel[..|rel|] == rel;
    FindingsStep(count, rel, columns, e, i);
  }

  lemma BeginTable(count: Count, rel: Relations, columns: seq<string>, e: Entity, i: nat, j: nat)
    requires i < |columns| <= |e.key| && j < |rel|
    ensures SoFar(count, rel, columns, e, i, j, 0)
         == Findings(count, rel, columns[..i], e) + InRelations(count, PartOf(e, columns, i), rel[..j])
  {
    assert rel[j].constraints[..0] == [];
  }

  lemma EndTable(count: Count, rel: Relations, columns: seq<string>, e: Entity, i: nat, j: nat)
    requires i < |columns| <= |e.key| && j < |rel|
    ensures SoFar(count, rel, columns, e, i, j, |rel[j].constraints|)
         == Findings(count, rel, columns[..i], e) + InRelations(count, PartOf(e, columns, i), rel[..j + 1])
  {
    assert rel[j].constraints[..|rel[j].constraints|] == rel[j].constraints;
    RelationsStep(count, PartOf(e, columns, i), rel, j);
  }

  lemma Stopped(count: Count, rel: Relations, columns: seq<string>, e: Entity, i: nat, j: nat, k: nat,
                told: seq<Finding>)
    requires i < |columns| == |e.key| && j < |rel| && k < |rel[j].constraints|
    requires Clean(SoFar(count, rel, columns, e, i, j, k))
    requires Found(count, PartOf(e, columns, i), rel[j].name, rel[j].constraints[k]) ==
               [Finding(PartOf(e, columns, i), rel[j].name, Restrict)]
    ensures Checked(e.key, Findings(count, rel, columns, e), rel, told, true, e.key[..i + 1],
              [StillReferenced(columns[i], e.key[i], rel[j].name)])
  {
    StopHere(count, rel, columns, e, i, j, k, Finding(PartOf(e, columns, i), rel[j].name, Restrict));
  }

  /** What the check of one entity leads to. */
  ghost predicate Checked(key: seq<string>, fs: seq<Finding>, rel: Relations, told: seq<Finding>,
                          blocked: bool, row: seq<string>, messages: seq<Message>) {
    && blocked == Blocking(fs)
    && row == Row(key, fs)
    && TellsAll(rel, messages, ToldAfter(told, fs))
  }

  /** All constraints that may refer to column i of an entity, up to the first restriction. */
  method CheckColumn(e: Entity, columns: seq<string>, i: nat, rel: Relations, count: Count, messages0: seq<Message>,
                     ghost told: seq<Finding>)
    returns (stop: bool, messages: seq<Message>)
    requires i < |columns| == |e.key| && AllTerminate(rel, Findings(count, rel, columns, e))
    requires ToldSoFar(rel, messages0, told, Findings(count, rel, columns[..i], e))
    ensures stop ==> Checked(e.key, Findings(count, rel, columns, e), rel, told, true, e.key[..i + 1], messages)
    ensures !stop ==> ToldSoFar(rel, messages, told, Findings(count, rel, columns[..i + 1], e))
  {
    stop, messages := false, messages0;
    var p := PartOf(e, columns, i);
    ghost var before := Findings(count, rel, columns[..i], e);
    BeginColumn(count, rel, columns, e, i);
    var j := 0;
    while j < |rel|
      invariant 0 <= j <= |rel|
      invariant ToldSoFar(rel, messages, told, before + InRelations(count, p, rel[..j]))
    {
      BeginTable(count, rel, columns, e, i, j);
      var k := 0;
      while k < |rel[j].constraints|
        invariant 0 <= k <= |rel[j].constraints|
        invariant ToldSoFar(rel, messages, told, SoFar(count, rel, columns, e, i, j, k))
      {
        MayAsk(count, rel, columns, e, i, j, k);
        stop, messages := CheckConstraint(p, rel[j].name, rel[j].constraints[k], rel, count, messages, told,
            SoFar(count, rel, columns, e, i, j, k));
        if stop {
          Stopped(count, rel, columns, e, i, j, k, told);
          return;
        }
        SoFarStep(count, rel, columns, e, i, j, k);
        k := k + 1;
      }
      EndTable(count, rel, columns, e, i, j);
      j := j + 1;
    }
    EndColumn(count, rel, columns, e, i);
  }

  lemma Unblocked(key: seq<string>, fs: seq<Finding>, rel: Relations, told: seq<Finding>, messages: seq<Message>)
    requires ToldSoFar(rel, messages, told, fs)
    ensures Checked(key, fs, rel, told, false, key, messages)
  {
  }

  lemma NothingToldYet(count: Count, rel: Relations, columns: seq<string>, e: Entity, told: seq<Finding>,
                       messages: seq<Message>)
    requires |e.key| == |columns| && TellsAll(rel, messages, told)
    ensures ToldSoFar(rel, messages, told, Findings(count, rel, columns[..0], e))
  {
    assert columns[..0] == [];
    assert told + [] == told;
  }

  /**
   The check of one entity. A restriction leaves the loop over the identifier columns, but only
   that one: the row gathered so far is still recorded and the next entity is still checked.
   */
  method CheckEntity(e: Entity, columns: seq<string>, rel: Relations, count: Count, isError0: bool,
                     messages0: seq<Message>, ghost told: seq<Finding>)
    returns (isError: bool, row: seq<string>, messages: seq<Message>)
    requires |e.key| == |columns| && AllTerminate(rel, Findings(count, rel, columns, e)) &&
             TellsAll(rel, messages0, told)
    ensures var fs := Findings(count, rel, columns, e);
            isError == (isError0 || Blocking(fs)) && Checked(e.key, fs, rel, told, Blocking(fs), row, messages)
  {
    isError, row, messages := isError0, [], messages0;
    NothingToldYet(count, rel, columns, e, told, messages);
    var i := 0;
    while i < |columns|
      invariant 0 <= i <= |columns| && isError == isError0 && row == e.key[..i]
      invariant ToldSoFar(rel, messages, told, Findings(count, rel, columns[..i], e))
    {
      row := row + [e.key[i]];
      assert row == e.key[..i + 1];
      var stop;
      stop, messages := CheckColumn(e, columns, i, rel, count, messages, told);
      if stop {
        isError := true;
        return;
      }
      i := i + 1;
    }
    assert columns[..i] == columns && e.key[..i] == e.key;
    Unblocked(e.key, Findings(count, rel, columns, e), rel, told, messages);
  }

  // ----- all entities

  /** The findings on each entity. */
  function AllFindings(count: Count, rel: Relations, columns: seq<string>, es: seq<Entity>): (fss: seq<seq<Finding>>)
    requires FullKeys(columns, es)
    ensures |fss| == |es|
  {
    if es == [] then []
    else
      var last := |es| - 1;
      assert es[last] in es;
      AllFindings(count, rel, columns, es[..last]) + [Findings(count, rel, columns, es[last])]
  }

  predicate FullKeys(columns: seq<string>, es: seq<Entity>) {
    forall e :: e in es ==> |e.key| == |columns|
  }

  /** Every search for dependent classes that the check asks for ends. */
  ghost predicate SearchesEnd(count: Count, rel: Relations, columns: seq<string>, es: seq<Entity>)
    requires FullKeys(columns, es)
  {
    forall i :: 0 <= i < |es| ==> AllTerminate(rel, AllFindings(count, rel, columns, es)[i])
  }

  ghost predicate SomeBlocking(fss: seq<seq<Finding>>) {
    exists i :: 0 <= i < |fss| && Blocking(fss[i])
  }

  /** One row of key values for each entity. */
  ghost predicate Rows(rows: seq<seq<string>>, es: seq<Entity>, fss: seq<seq<Finding>>) {
    |rows| == |es| == |fss| && forall i :: 0 <= i < |es| ==> rows[i] == Row(es[i].key, fss[i])
  }

  lemma AllFindingsStep(count: Count, rel: Relations, columns: seq<string>, es: seq<Entity>, n: nat)
    requires FullKeys(columns, es) && n < |es|
    ensures FullKeys(columns, es[..n]) && FullKeys(columns, es[..n + 1]) && |es[n].key| == |columns|
    ensures AllFindings(count, rel, columns, es[..n + 1]) ==
              AllFindings(count, rel, columns, es[..n]) + [Findings(count, rel, columns, es[n])]
  {
    assert es[n] in es;
    assert forall e :: e in es[..n] ==> e in es;
    assert forall e :: e in es[..n + 1] ==> e in es;
    assert es[..n + 1][..n] == es[..n];
  }

  lemma {:induction false} AllFindingsAt(count: Count, rel: Relations, columns: seq<string>, es: seq<Entity>, i: nat)
    requires FullKeys(columns, es) && i < |es|
    ensures |es[i].key| == |columns| && AllFindings(count, rel, columns, es)[i] == Findings(count, rel, columns, es[i])
  {
    var last := |es| - 1;
    AllFindingsStep(count, rel, columns, es, last);
    assert es[..last + 1] == es;
    if i < last {
      AllFindingsAt(count, rel, columns, es[..last], i);
    }
  }

  /** What is known once the entities es are checked. */
  ghost predicate Reported(es: seq<Entity>, fss: seq<seq<Finding>>, rel: Relations, isError: bool,
                           rows: seq<seq<string>>, messages: seq<Message>) {
    && isError == SomeBlocking(fss)
    && Rows(rows, es, fss)
    && TellsAll(rel, messages, Told(fss))
  }

  lemma SomeBlockingStep(fss: seq<seq<Finding>>, fs: seq<Finding>)
    ensures SomeBlocking(fss + [fs]) == (SomeBlocking(fss) || Blocking(fs))
  {
    var fss' := fss + [fs];
    assert forall i :: 0 <= i < |fss| ==> fss'[i] == fss[i];
    assert fss'[|fss|] == fs;
  }

  lemma ToldStep(fss: seq<seq<Finding>>, fs: seq<Finding>)
    ensures Told(fss + [fs]) == ToldAfter(Told(fss), fs)
  {
    assert (fss + [fs])[..|fss|] == fss;
  }

  lemma RowsStep(rows: seq<seq<string>>, es: seq<Entity>, fss: seq<seq<Finding>>, n: nat, fs: seq<Finding>,
                 row: seq<string>)
    requires n < |es| && Rows(rows, es[..n], fss) && row == Row(es[n].key, fs)
    ensures Rows(rows + [row], es[..n + 1], fss + [fs])
  {
  }

  lemma ReportedStep(es: seq<Entity>, n: nat, fss: seq<seq<Finding>>, fs: seq<Finding>, rel: Relations, isError: bool,
                     rows: seq<seq<string>>, row: seq<string>, before: seq<Message>, messages: seq<Message>)
    requires n < |es| && Reported(es[..n], fss, rel, isError, rows, before)
    requires Checked(es[n].key, fs, rel, Told(fss), Blocking(fs), row, messages)
    ensures Reported(es[..n + 1], fss + [fs], rel, isError || Blocking(fs), rows + [row], messages)
  {
    SomeBlockingStep(fss, fs);
    RowsStep(rows, es, fss, n, fs, row);
    ToldStep(fss, fs);
  }

  /**
   An error exactly if some entity is blocked, one row of key values per entity, and messages
   for what is told.
   */
  method BuildDeleteTree(entities: seq<Entity>, columns: seq<string>, rel: Relations, count: Count)
    returns (isError: bool, primaryKeyData: seq<seq<string>>, messages: seq<Message>)
    requires FullKeys(columns, entities) && SearchesEnd(count, rel, columns, entities)
    ensures Reported(entities, AllFindings(count, rel, columns, entities), rel, isError, primaryKeyData, messages)
  {
    isError, primaryKeyData, messages := false, [], [];
    var n := 0;
    ghost var fss: seq<seq<Finding>> := [];
    while n < |entities|
      invariant 0 <= n <= |entities| && FullKeys(columns, entities[..n]) &&
                fss == AllFindings(count, rel, columns, entities[..n])
      invariant Reported(entities[..n], fss, rel, isError, primaryKeyData, messages)
    {
      AllFindingsAt(count, rel, columns, entities, n);
      AllFindingsStep(count, rel, columns, entities, n);
      ghost var fs, before := Findings(count, rel, columns, entities[n]), messages;
      var error, row;
      error, row, messages := CheckEntity(entities[n], columns, rel, count, isError, messages, Told(fss));
      ReportedStep(entities, n, fss, fs, rel, isError, primaryKeyData, row, before, messages);
      fss := fss + [fs];
      isError := error;
      primaryKeyData := primaryKeyData + [row];
      n := n + 1;
    }
    assert entities[..n] == entities;
  }

  /** Everything worth a note. */
  function AllNotes(fss: seq<seq<Finding>>): seq<Finding> {
    if fss == [] then [] else AllNotes(fss[..|fss| - 1]) + Notes(fss[|fss| - 1])
  }

  lemma {:induction false} NothingBlocked(fss: seq<seq<Finding>>)
    requires !SomeBlocking(fss)
    ensures Told(fss) == AllNotes(fss)
  {
    if fss != [] {
      var init := fss[..|fss| - 1];
      assert forall i :: 0 <= i < |init| ==> init[i] == fss[i];
      NothingBlocked(init);
    }
  }

  /** What is told begins with the first restriction on the last blocked entity; notes on later entities follow. */
  lemma {:induction false} LastBlockedSpeaks(before: seq<seq<Finding>>, fs: seq<Finding>, after: seq<seq<Finding>>)
    requires Blocking(fs) && !SomeBlocking(after)
    ensures Told(before + [fs] + after) == [FirstRestriction(fs).value] + AllNotes(after)
    decreases |after|
  {
    if after == [] {
      assert before + [fs] + after == before + [fs];
      ToldStep(before, fs);
    } else {
      var init, last := after[..|after| - 1], after[|after| - 1];
      assert before + [fs] + after == (before + [fs] + init) + [last];
      ToldStep(before + [fs] + init, last);
      assert forall i :: 0 <= i < |init| ==> init[i] == after[i];
      LastBlockedSpeaks(before, fs, init);
      assert !Blocking(last);
      var r := [FirstRestriction(fs).value];
      assert (r + AllNotes(init)) + Notes(last) == r + (AllNotes(init) + Notes(last));
    }
  }

  lemma {:induction false} LastBlocked(fss: seq<seq<Finding>>) returns (b: nat)
    requires SomeBlocking(fss)
    ensures b < |fss| && Blocking(fss[b]) && !SomeBlocking(fss[b + 1..])
  {
    var last := |fss| - 1;
    if Blocking(fss[last]) {
      b := last;
    } else {
      var i :| 0 <= i < |fss| && Blocking(fss[i]);
      assert fss[..last][i] == fss[i];
      b := LastBlocked(fss[..last]);
      var tail := fss[b + 1..];
      forall j | 0 <= j < |tail| ensures !Blocking(tail[j]) {
        if j < last - b - 1 {
          assert fss[..last][b + 1..][j] == tail[j];
        }
      }
    }
  }

  /**
   An entity is blocked exactly if rows of some table refer to it through a constraint without an ON DELETE
   action.
   */
  lemma BlockedIff(count: Count, rel: Relations, columns: seq<string>, e: Entity)
    requires |columns| <= |e.key|
    ensures Blocking(Findings(count, rel, columns, e)) <==> exists i, j, k :: Restricts(count, rel, columns, e, i, j, k)
  {
    var fs := Findings(count, rel, columns, e);
    RestrictionIffFound(fs);
    if Blocking(fs) {
      var i, j, k := FindingFrom(count, rel, columns, e, FirstRestriction(fs).value);
      assert Restricts(count, rel, columns, e, i, j, k);
    }
    if i, j, k :| Restricts(count, rel, columns, e, i, j, k) {
      SoFarStep(count, rel, columns, e, i, j, k);
      var rest := SoFarPrefix(count, rel, columns, e, i, j, k + 1);
      var f := Finding(PartOf(e, columns, i), rel[j].name, Restrict);
      assert f in Found(count, PartOf(e, columns, i), rel[j].name, rel[j].constraints[k]);
      assert f in SoFar(count, rel, columns, e, i, j, k + 1);
      assert f in fs;
    }
  }

  ghost predicate Refers(count: Count, rel: Relations, columns: seq<string>, e: Entity, i: int, j: int, k: int)
    requires |columns| <= |e.key|
  {
    && 0 <= i < |columns| && 0 <= j < |rel| && 0 <= k < |rel[j].constraints|
    && rel[j].constraints[k].target == e.cls && rel[j].constraints[k].targetColumn == columns[i]
    && count(rel[j].name, rel[j].constraints[k].column, e.key[i]) > 0
  }

  ghost predicate Restricts(count: Count, rel: Relations, columns: seq<string>, e: Entity, i: int, j: int, k: int)
    requires |columns| <= |e.key|
  {
    Refers(count, rel, columns, e, i, j, k) && rel[j].constraints[k].action == Restrict
  }

  /** Rows of some table refer to entity n through a constraint without an ON DELETE action. */
  ghost predicate Restricted(count: Count, rel: Relations, columns: seq<string>, es: seq<Entity>, n: int)
    requires FullKeys(columns, es)
  {
    0 <= n < |es| && es[n] in es && exists i, j, k :: Restricts(count, rel, columns, es[n], i, j, k)
  }

  lemma SomeBlockingIff(count: Count, rel: Relations, columns: seq<string>, es: seq<Entity>)
    requires FullKeys(columns, es)
    ensures SomeBlocking(AllFindings(count, rel, columns, es)) <==> exists n :: Restricted(count, rel, columns, es, n)
  {
    var fss := AllFindings(count, rel, columns, es);
    forall n | 0 <= n < |es| ensures Blocking(fss[n]) <==> Restricted(count, rel, columns, es, n) {
      AllFindingsAt(count, rel, columns, es, n);
      BlockedIff(count, rel, columns, es[n]);
    }
    if n :| 0 <= n < |fss| && Blocking(fss[n]) {
      assert Restricted(count, rel, columns, es, n);
    }
    if n :| Restricted(count, rel, columns, es, n) {
      assert Blocking(fss[n]);
    }
  }

  lemma {:induction false} FindingInTable(count: Count, p: Part, table: string, ks: seq<Constraint>, f: Finding)
    returns (k: nat)
    requires f in InTable(count, p, table, ks)
    ensures k < |ks| && Found(count, p, table, ks[k]) == [f]
  {
    var last := |ks| - 1;
    if f in Found(count, p, table, ks[last]) {
      k := last;
    } else {
      k := FindingInTable(count, p, table, ks[..last], f);
    }
  }

  lemma {:induction false} FindingInRelations(count: Count, p: Part, rel: Relations, f: Finding)
    returns (j: nat, k: nat)
    requires f in InRelations(count, p, rel)
    ensures j < |rel| && k < |rel[j].constraints| && Found(count, p, rel[j].name, rel[j].constraints[k]) == [f]
  {
    var last := |rel| - 1;
    if f in InTable(count, p, rel[last].name, rel[last].constraints) {
      j := last;
      k := FindingInTable(count, p, rel[last].name, rel[last].constraints, f);
    } else {
      j, k := FindingInRelations(count, p, rel[..last], f);
    }
  }

  lemma {:induction false} FindingFrom(count: Count, rel: Relations, columns: seq<string>, e: Entity, f: Finding)
    returns (i: nat, j: nat, k: nat)
    requires |columns| <= |e.key| && f in Findings(count, rel, columns, e)
    ensures i < |columns| && j < |rel| && k < |rel[j].constraints|
    ensures Found(count, PartOf(e, columns, i), rel[j].name, rel[j].constraints[k]) == [f]
    decreases |columns|
  {
    var last := |columns| - 1;
    if f in InRelations(count, PartOf(e, columns, last), rel) {
      i := last;
      j, k := FindingInRelations(count, PartOf(e, columns, last), rel, f);
    } else {
      i, j, k := FindingFrom(count, rel, columns[..last], e, f);
    }
  }

  // ----- which tables are told about

  lemma {:induction false} NotesHold(fs: seq<Finding>, f: Finding)
    ensures f in Notes(fs) <==> f in fs && (f.action == Cascade || f.action == SetNull)
  {
    if fs != [] {
      NotesHold(fs[1..], f);
      assert forall g :: g in fs <==> g == fs[0] || g in fs[1..];
    }
  }

  lemma {:induction false} AllNotesHold(fss: seq<seq<Finding>>, f: Finding)
    ensures f in AllNotes(fss) <==>
              (f.action == Cascade || f.action == SetNull) && exists n :: 0 <= n < |fss| && f in fss[n]
  {
    if fss != [] {
      var init, last := fss[..|fss| - 1], |fss| - 1;
      AllNotesHold(init, f);
      NotesHold(fss[last], f);
      assert forall n :: 0 <= n < last ==> init[n] == fss[n];
      if n :| 0 <= n < |init| && f in init[n] {
        assert f in fss[n];
      }
    }
  }

  /** Rows of the table refer to the entity through a constraint with this action. */
  ghost predicate RefersBy(count: Count, rel: Relations, columns: seq<string>, e: Entity, table: string,
                           action: OnDelete)
    requires |columns| <= |e.key|
  {
    exists i, j, k :: Refers(count, rel, columns, e, i, j, k) && rel[j].name == table
                      && rel[j].constraints[k].action == action
  }

  lemma FoundIffRefers(count: Count, rel: Relations, columns: seq<string>, e: Entity, table: string, action: OnDelete)
    requires |columns| <= |e.key|
    ensures (exists f :: f in Findings(count, rel, columns, e) && f.table == table && f.action == action) <==>
              RefersBy(count, rel, columns, e, table, action)
  {
    var fs := Findings(count, rel, columns, e);
    if f :| f in fs && f.table == table && f.action == action {
      var i, j, k := FindingFrom(count, rel, columns, e, f);
      assert Refers(count, rel, columns, e, i, j, k);
    }
    if i, j, k :| Refers(count, rel, columns, e, i, j, k) && rel[j].name == table
                  && rel[j].constraints[k].action == action {
      SoFarStep(count, rel, columns, e, i, j, k);
      var rest := SoFarPrefix(count, rel, columns, e, i, j, k + 1);
      var f := Finding(PartOf(e, columns, i), table, action);
      assert f in Found(count, PartOf(e, columns, i), rel[j].name, rel[j].constraints[k]);
      assert f in SoFar(count, rel, columns, e, i, j, k + 1);
      assert f in fs;
    }
  }

  /** A message says that deleting cascades to the table, or leaves dangling references in it. */
  predicate Says(m: Message, table: string, action: OnDelete) {
    if action == Cascade then m.CascadeTo? && m.table == table else m == DanglingIn(table)
  }

  ghost predicate SomeEntityRefersBy(count: Count, rel: Relations, columns: seq<string>, es: seq<Entity>, table: string,
                                     action: OnDelete)
    requires FullKeys(columns, es)
  {
    exists n :: 0 <= n < |es| && es[n] in es && RefersBy(count, rel, columns, es[n], table, action)
  }

  lemma NotedIffRefers(count: Count, rel: Relations, columns: seq<string>, es: seq<Entity>, table: string,
                       action: OnDelete)
    requires FullKeys(columns, es) && (action == Cascade || action == SetNull)
    ensures (exists f :: f in AllNotes(AllFindings(count, rel, columns, es)) && f.table == table && f.action == action)
            <==> SomeEntityRefersBy(count, rel, columns, es, table, action)
  {
    var fss := AllFindings(count, rel, columns, es);
    forall n | 0 <= n < |es| ensures es[n] in es && |es[n].key| == |columns| {}
    if f :| f in AllNotes(fss) && f.table == table && f.action == action {
      AllNotesHold(fss, f);
      var n :| 0 <= n < |fss| && f in fss[n];
      AllFindingsAt(count, rel, columns, es, n);
      FoundIffRefers(count, rel, columns, es[n], table, action);
    }
    if n :| 0 <= n < |es| && es[n] in es && RefersBy(count, rel, columns, es[n], table, action) {
      AllFindingsAt(count, rel, columns, es, n);
      FoundIffRefers(count, rel, columns, es[n], table, action);
      var f: Finding :| f in fss[n] && f.table == table && f.action == action;
      AllNotesHold(fss, f);
    }
  }

  /**
   If nothing is blocked, there is a message about a table exactly if rows of it refer to some entity through
   a constraint with that action.
   */
  lemma SaidIffRefers(count: Count, rel: Relations, columns: seq<string>, es: seq<Entity>, messages: seq<Message>,
                      table: string, action: OnDelete)
    requires FullKeys(columns, es) && (action == Cascade || action == SetNull)
    requires !SomeBlocking(AllFindings(count, rel, columns, es))
    requires TellsAll(rel, messages, Told(AllFindings(count, rel, columns, es)))
    ensures (exists m :: m in messages && Says(m, table, action)) <==>
              SomeEntityRefersBy(count, rel, columns, es, table, action)
  {
    var fs := AllNotes(AllFindings(count, rel, columns, es));
    NothingBlocked(AllFindings(count, rel, columns, es));
    NotedIffRefers(count, rel, columns, es, table, action);
    if m :| m in messages && Says(m, table, action) {
      var i :| 0 <= i < |messages| && messages[i] == m;
      assert Tells(rel, m, fs[i]);
      AllNotesHold(AllFindings(count, rel, columns, es), fs[i]);
      assert fs[i] in fs && fs[i].table == table && fs[i].action == action;
    }
    if f :| f in fs && f.table == table && f.action == action {
      var i :| 0 <= i < |fs| && fs[i] == f;
      assert Tells(rel, messages[i], fs[i]);
      assert messages[i] in messages;
    }
  }

  // ----- the gate

  datatype Response = Refused(first: Message) | Deleted | Page(isError: bool, messages: seq<Message>)

  function KeyPairs(es: seq<Entity>): seq<(Entity, seq<string>)> {
    seq(|es|, i requires 0 <= i < |es| => (es[i], es[i].key))
  }

  class Controller {
    /** The deletions carried out, each with the key values it is announced with. */
    var deleted: seq<(Entity, seq<string>)>

    constructor ()
      ensures deleted == []
    {
      deleted := [];
    }

    /**
     A POST request deletes all entities, with their complete keys, if none is blocked, and
     nothing otherwise; the error it answers with is the first restriction on the last blocked
     entity. Other requests only show what a deletion would do.
     */
    method DeleteEntities(post: bool, entities: seq<Entity>, columns: seq<string>, rel: Relations, count: Count)
      returns (r: Response)
      requires FullKeys(columns, entities) && SearchesEnd(count, rel, columns, entities)
      modifies this
      ensures var fss := AllFindings(count, rel, columns, entities);
              && (!post ==> r.Page? && r.isError == SomeBlocking(fss) && TellsAll(rel, r.messages, Told(fss)))
              && (post && !SomeBlocking(fss) ==> r == Deleted)
              && (post && SomeBlocking(fss) ==> r.Refused? && AnswersLastBlocked(rel, r.first, fss))
      ensures post ==> (r.Refused? <==> exists n :: Restricted(count, rel, columns, entities, n))
      ensures deleted == if r == Deleted then old(deleted) + KeyPairs(entities) else old(deleted)
    {
      var isError, primaryKeyData, messages := BuildDeleteTree(entities, columns, rel, count);
      ghost var fss := AllFindings(count, rel, columns, entities);
      SomeBlockingIff(count, rel, columns, entities);
      if post {
        if isError {
          FirstMessage(rel, messages, fss);
          return Refused(messages[0]);
        }
        CompleteRows(entities, primaryKeyData, fss);
        var n := 0;
        while n < |entities|
          invariant 0 <= n <= |entities| && deleted == old(deleted) + KeyPairs(entities)[..n]
        {
          deleted := deleted + [(entities[n], primaryKeyData[n])];
          n := n + 1;
        }
        return Deleted;
      }
      r := Page(isError, messages);
    }
  }

  ghost predicate AnswersLastBlocked(rel: Relations, m: Message, fss: seq<seq<Finding>>) {
    exists b :: 0 <= b < |fss| && Blocking(fss[b]) && !SomeBlocking(fss[b + 1..]) &&
        Tells(rel, m, FirstRestriction(fss[b]).value)
  }

  lemma FirstMessage(rel: Relations, messages: seq<Message>, fss: seq<seq<Finding>>)
    requires SomeBlocking(fss) && TellsAll(rel, messages, Told(fss))
    ensures messages != [] && AnswersLastBlocked(rel, messages[0], fss)
  {
    var b := LastBlocked(fss);
    assert fss == fss[..b] + [fss[b]] + fss[b + 1..];
    LastBlockedSpeaks(fss[..b], fss[b], fss[b + 1..]);
    assert Tells(rel, messages[0], Told(fss)[0]);
  }

  lemma CompleteRows(es: seq<Entity>, rows: seq<seq<string>>, fss: seq<seq<Finding>>)
    requires Rows(rows, es, fss) && !SomeBlocking(fss)
    ensures forall i :: 0 <= i < |es| ==> rows[i] == es[i].key
  {
    forall i | 0 <= i < |es| ensures rows[i] == es[i].key {
      assert !Blocking(fss[i]);
    }
  }
}
