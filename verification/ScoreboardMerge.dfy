/**
 The aggregation of the scoreboards of several sites into one: numbering of teams and problems,
 first-to-solve marks and rank totals.
 */
module ScoreboardMerge {
  import opened Wrappers

  // ----- what the sites deliver

  datatype SiteTeam = SiteTeam(id: string, name: string, groups: seq<string>)

  /** The result of a team on a problem; time is in minutes and only present if the problem is solved. */
  datatype Result = Result(problemId: string, time: Option<int>, judged: int, solved: bool)

  datatype ResultRow = ResultRow(teamId: string, results: seq<Result>)

  datatype Site = Site(groups: seq<string>, teams: seq<SiteTeam>, problemNames: map<string, string>,
      rows: seq<ResultRow>)

  predicate Included(t: SiteTeam, groups: seq<string>) {
    exists g :: g in t.groups && g in groups
  }

  /** The teams of a site that take part, in order. */
  function Taking(teams: seq<SiteTeam>, groups: seq<string>): seq<SiteTeam> {
    if teams == [] then []
    else
      var last := |teams| - 1;
      Taking(teams[..last], groups) + (if Included(teams[last], groups) then [teams[last]] else [])
  }

  /** From the id that a site uses for a team to the number of the team, numbering from base on. */
  function Numbering(teams: seq<SiteTeam>, groups: seq<string>, base: nat): map<string, nat> {
    if teams == [] then map[]
    else
      var last := |teams| - 1;
      var before := Numbering(teams[..last], groups, base);
      if Included(teams[last], groups) then before[teams[last].id := base + |Taking(teams[..last], groups)|] else before
  }

  /** A result that counts: of team number team, on the problem with the given name, if the site describes it. */
  datatype Entry = Entry(team: nat, name: string, described: bool, result: Result)

  /** The name of a problem that the site does not describe is null, which as an array key is the empty string. */
  function EntryOf(team: nat, names: map<string, string>, r: Result): Entry {
    Entry(team, if r.problemId in names then names[r.problemId] else "", r.problemId in names, r)
  }

  /** Results on problems that their sites describe fall together exactly if the problems have the same name. */
  lemma MergedByName(team: nat, names: map<string, string>, r: Result, team': nat, names': map<string, string>,
                     r': Result)
    requires r.problemId in names && r'.problemId in names'
    ensures EntryOf(team, names, r).name == EntryOf(team', names', r').name <==>
              names[r.problemId] == names'[r'.problemId]
    ensures EntryOf(team, names, r).described && EntryOf(team, names, r).team == team
    ensures EntryOf(team, names, r).result == r
  {
  }

  /** A team takes part exactly if one of its groups is listed for the site. */
  lemma {:induction false} TakingIff(teams: seq<SiteTeam>, groups: seq<string>, t: SiteTeam)
    ensures t in Taking(teams, groups) <==> t in teams && exists g :: g in t.groups && g in groups
  {
    if teams != [] {
      var init, last := teams[..|teams| - 1], teams[|teams| - 1];
      TakingIff(init, groups, t);
      assert forall x :: x in teams <==> x in init || x == last;
    }
  }

  function ResultEntries(results: seq<Result>, team: nat, names: map<string, string>): seq<Entry> {
    if results == [] then []
    else
      var last := |results| - 1;
      ResultEntries(results[..last], team, names) + [EntryOf(team, names, results[last])]
  }

  function RowEntries(row: ResultRow, numbers: map<string, nat>, names: map<string, string>): seq<Entry> {
    if row.teamId in numbers then ResultEntries(row.results, numbers[row.teamId], names) else []
  }

  function RowsEntries(rows: seq<ResultRow>, numbers: map<string, nat>, names: map<string, string>): seq<Entry> {
    if rows == [] then []
    else
      var last := |rows| - 1;
      RowsEntries(rows[..last], numbers, names) + RowEntries(rows[last], numbers, names)
  }

  lemma {:induction false} NumberingShifts(teams: seq<SiteTeam>, groups: seq<string>, base: nat)
    ensures Numbering(teams, groups, base).Keys == Numbering(teams, groups, 0).Keys
    ensures forall id :: id in Numbering(teams, groups, 0) ==>
              Numbering(teams, groups, base)[id] == base + Numbering(teams, groups, 0)[id]
  {
    if teams != [] {
      NumberingShifts(teams[..|teams| - 1], groups, base);
    }
  }

  /** The ids of all teams that take part are numbered, and each number leads to a team of that id. */
  lemma {:induction false} NumberingFindsTeam(teams: seq<SiteTeam>, groups: seq<string>)
    ensures forall t :: t in teams && Included(t, groups) ==> t.id in Numbering(teams, groups, 0)
    ensures forall id :: id in Numbering(teams, groups, 0) ==>
              && Numbering(teams, groups, 0)[id] < |Taking(teams, groups)|
              && Taking(teams, groups)[Numbering(teams, groups, 0)[id]].id == id
  {
    if teams != [] {
      var init := teams[..|teams| - 1];
      NumberingFindsTeam(init, groups);
      assert forall t :: t in teams <==> t in init || t == teams[|teams| - 1];
    }
  }

  function SiteEntries(s: Site, base: nat): seq<Entry> {
    RowsEntries(s.rows, Numbering(s.teams, s.groups, base), s.problemNames)
  }

  /** All teams that take part, site by site; the position of a team is its number. */
  function Roster(sites: seq<Site>): seq<SiteTeam> {
    if sites == [] then []
    else
      var last := |sites| - 1;
      Roster(sites[..last]) + Taking(sites[last].teams, sites[last].groups)
  }

  function Entries(sites: seq<Site>): seq<Entry> {
    if sites == [] then []
    else
      var last := |sites| - 1;
      Entries(sites[..last]) + SiteEntries(sites[last], |Roster(sites[..last])|)
  }

  // ----- what the entries amount to

  /** The names of the problems, in the order in which they turn up. */
  function Names(es: seq<Entry>): seq<string> {
    if es == [] then []
    else
      var before, name := Names(es[..|es| - 1]), es[|es| - 1].name;
      if name in before then before else before + [name]
  }

  /**
   A problem that is met first where no site describes it has no name to be created with: that ends the
   merge with an error. If a problem with the empty name is known already, it takes the result instead.
   */
  predicate Broken(es: seq<Entry>) {
    es != [] && (Broken(es[..|es| - 1]) || (!es[|es| - 1].described && es[|es| - 1].name !in Names(es[..|es| - 1])))
  }

  lemma BrokenStep(es: seq<Entry>, e: Entry)
    ensures Broken(es + [e]) <==> Broken(es) || (!e.described && e.name !in Names(es))
  {
    assert (es + [e])[..|es|] == es;
  }

  lemma {:induction false} BrokenStays(es: seq<Entry>, more: seq<Entry>)
    requires Broken(es)
    ensures Broken(es + more)
  {
    if more == [] {
      assert es + more == es;
    } else {
      var init, e := more[..|more| - 1], more[|more| - 1];
      assert es + more == (es + init) + [e];
      BrokenStays(es, init);
      BrokenStep(es + init, e);
    }
  }

  /** If every result is on a problem that its site describes, nothing breaks. */
  lemma {:induction false} DescribedNotBroken(es: seq<Entry>)
    requires forall i :: 0 <= i < |es| ==> es[i].described
    ensures !Broken(es)
  {
    if es != [] {
      DescribedNotBroken(es[..|es| - 1]);
    }
  }

  /** The earliest time of a problem, in seconds. */
  function Earliest(es: seq<Entry>, name: string): Option<int> {
    if es == [] then None
    else
      var before, e := Earliest(es[..|es| - 1], name), es[|es| - 1];
      if e.name == name && e.result.time.Some? && (before.None? || e.result.time.value * 60 < before.value)
      then Some(e.result.time.value * 60) else before
  }

  lemma {:induction false} NamesDistinct(es: seq<Entry>)
    ensures forall i, j :: 0 <= i < j < |Names(es)| ==> Names(es)[i] != Names(es)[j]
    ensures forall n :: n in Names(es) <==> exists i :: 0 <= i < |es| && es[i].name == n
  {
    if es != [] {
      var init := es[..|es| - 1];
      NamesDistinct(init);
      assert forall i :: 0 <= i < |init| ==> init[i] == es[i];
      forall n ensures n in Names(es) <==> exists i :: 0 <= i < |es| && es[i].name == n {
        if n in Names(init) {
          var i :| 0 <= i < |init| && init[i].name == n;
          assert es[i].name == n;
        }
        if i :| 0 <= i < |es| && es[i].name == n {
          if i < |init| {
            assert init[i].name == n;
          }
        }
      }
    }
  }

  /** A timed result on a problem. */
  predicate TimedOn(e: Entry, name: string) {
    e.name == name && e.result.time.Some?
  }

  /** The earliest time is the minimum of the times on the problem. */
  lemma {:induction false} EarliestIsMinimum(es: seq<Entry>, name: string)
    ensures Earliest(es, name).None? <==> forall i :: 0 <= i < |es| ==> !TimedOn(es[i], name)
    ensures forall i :: 0 <= i < |es| && TimedOn(es[i], name) ==>
              Earliest(es, name).Some? && Earliest(es, name).value <= es[i].result.time.value * 60
    ensures Earliest(es, name).Some? ==>
              exists i :: 0 <= i < |es| && TimedOn(es[i], name) &&
                  es[i].result.time.value * 60 == Earliest(es, name).value
  {
    if es != [] {
      var init := es[..|es| - 1];
      EarliestIsMinimum(init, name);
      assert forall i :: 0 <= i < |init| ==> init[i] == es[i];
      if TimedOn(es[|es| - 1], name) {
      } else if Earliest(init, name).Some? {
        var i :| 0 <= i < |init| && TimedOn(init[i], name) &&
            init[i].result.time.value * 60 == Earliest(init, name).value;
        assert TimedOn(es[i], name);
      }
      if Earliest(es, name).Some? && Earliest(es, name) == Earliest(init, name) {
        var i :| 0 <= i < |init| && TimedOn(init[i], name) &&
            init[i].result.time.value * 60 == Earliest(init, name).value;
        assert TimedOn(es[i], name);
      }
    }
  }

  // ----- the score cache

  datatype Cell = Cell(team: nat, problem: nat, solveTime: int, submissions: int, correct: bool, first: bool)

  function SolveTime(r: Result): int {
    if r.time.Some? then r.time.value * 60 else 0
  }

  /** The problems by number, the numbers by name, the earliest solve by name, and the cells. */
  datatype Tally = Tally(problems: seq<string>, numberOf: map<string, nat>, firstSolve: map<string, Option<int>>,
      cells: seq<Cell>)

  /** A cell holds the result of an entry. */
  ghost predicate Scores(cell: Cell, e: Entry) {
    cell.team == e.team && cell.solveTime == SolveTime(e.result) && cell.submissions == e.result.judged &&
        cell.correct == e.result.solved
  }

  ghost predicate CellOf(c: Cell, e: Entry, problems: seq<string>) {
    Scores(c, e) && c.problem < |problems| && problems[c.problem] == e.name
  }

  /** Problem numbers are the positions of the names. */
  ghost predicate Numbered(problems: seq<string>, numberOf: map<string, nat>) {
    && (forall i :: 0 <= i < |problems| ==> problems[i] in numberOf && numberOf[problems[i]] == i)
    && (forall n :: n in numberOf ==> numberOf[n] < |problems| && problems[numberOf[n]] == n)
  }

  ghost predicate FirstSolves(firstSolve: map<string, Option<int>>, es: seq<Entry>) {
    && (forall n :: n in firstSolve <==> n in Names(es))
    && (forall n :: n in firstSolve ==> firstSolve[n] == Earliest(es, n))
  }

  ghost predicate Cells(cells: seq<Cell>, es: seq<Entry>, problems: seq<string>) {
    |cells| == |es| && forall i :: 0 <= i < |es| ==> CellOf(cells[i], es[i], problems) && !cells[i].first
  }

  ghost predicate Tallied(t: Tally, es: seq<Entry>) {
    && t.problems == Names(es)
    && Numbered(t.problems, t.numberOf)
    && FirstSolves(t.firstSolve, es)
    && Cells(t.cells, es, t.problems)
  }

  lemma NamesStep(es: seq<Entry>, e: Entry)
    ensures Names(es + [e]) == if e.name in Names(es) then Names(es) else Names(es) + [e.name]
  {
    assert (es + [e])[..|es|] == es;
  }

  lemma EarliestStep(es: seq<Entry>, e: Entry, n: string)
    ensures Earliest(es + [e], n) ==
            if TimedOn(e, n) && (Earliest(es, n).None? || e.result.time.value * 60 < Earliest(es, n).value)
            then Some(e.result.time.value * 60) else Earliest(es, n)
  {
    assert (es + [e])[..|es|] == es;
  }

  lemma {:induction false} UnnamedHasNoEarliest(es: seq<Entry>, n: string)
    requires n !in Names(es)
    ensures Earliest(es, n) == None
  {
    NamesDistinct(es);
    EarliestIsMinimum(es, n);
  }

  lemma CellsGrow(cells: seq<Cell>, es: seq<Entry>, problems: seq<string>, problems': seq<string>, c: Cell, e: Entry)
    requires Cells(cells, es, problems) && problems <= problems'
    requires CellOf(c, e, problems') && !c.first
    ensures Cells(cells + [c], es + [e], problems')
  {
  }

  lemma FirstSolvesStep(f: map<string, Option<int>>, es: seq<Entry>, e: Entry, v: Option<int>)
    requires FirstSolves(f, es) && v == Earliest(es + [e], e.name)
    ensures FirstSolves(f[e.name := v], es + [e])
  {
    NamesStep(es, e);
    forall n | n in f[e.name := v] ensures f[e.name := v][n] == Earliest(es + [e], n) {
      EarliestStep(es, e, n);
    }
  }

  lemma NumberedStep(problems: seq<string>, numberOf: map<string, nat>, name: string)
    requires Numbered(problems, numberOf) && name !in numberOf
    ensures name !in problems && Numbered(problems + [name], numberOf[name := |problems|])
  {
  }

  /** The tally after the name of an entry is numbered and its time is taken into account. */
  lemma TallyStep(t: Tally, es: seq<Entry>, e: Entry, id: nat, numberOf: map<string, nat>, earliest: Option<int>,
                  cell: Cell)
    requires Tallied(t, es)
    requires if e.name in t.numberOf then id == t.numberOf[e.name] && numberOf == t.numberOf
             else id == |t.problems| && numberOf == t.numberOf[e.name := id]
    requires earliest == Earliest(es + [e], e.name)
    requires cell == Cell(e.team, id, SolveTime(e.result), e.result.judged, e.result.solved, false)
    ensures var problems := if e.name in t.numberOf then t.problems else t.problems + [e.name];
            Tallied(Tally(problems, numberOf, t.firstSolve[e.name := earliest], t.cells + [cell]), es + [e])
  {
    var problems := if e.name in t.numberOf then t.problems else t.problems + [e.name];
    NamesStep(es, e);
    FirstSolvesStep(t.firstSolve, es, e, earliest);
    if e.name !in t.numberOf {
      NumberedStep(t.problems, t.numberOf, e.name);
    }
    assert problems[id] == e.name;
    CellsGrow(t.cells, es, t.problems, problems, cell, e);
  }

  lemma KnownProblem(t: Tally, es: seq<Entry>, name: string)
    requires Tallied(t, es)
    ensures name in t.numberOf <==> name in t.firstSolve
    ensures name in t.numberOf <==> name in Names(es)
    ensures if name in t.numberOf then t.firstSolve[name] == Earliest(es, name) else Earliest(es, name) == None
  {
    if name in t.numberOf {
      assert t.problems[t.numberOf[name]] == name;
    } else {
      assert name !in t.problems;
      UnnamedHasNoEarliest(es, name);
    }
  }

  /** One result of a row: a problem is numbered when its name turns up first. */
  method AddResult(t: Tally, team: nat, names: map<string, string>, r: Result, ghost es: seq<Entry>)
    returns (ok: bool, t': Tally)
    requires Tallied(t, es) && !Broken(es)
    ensures ok == !Broken(es + [EntryOf(team, names, r)])
    ensures ok ==> Tallied(t', es + [EntryOf(team, names, r)])
  {
    var problems, numberOf, firstSolve := t.problems, t.numberOf, t.firstSolve;
    var baseProblem := if r.problemId in names then Some(names[r.problemId]) else None;
    var key := if baseProblem.Some? then baseProblem.value else "";
    ghost var e := EntryOf(team, names, r);
    KnownProblem(t, es, key);
    EarliestStep(es, e, key);
    BrokenStep(es, e);
    var id;
    if key !in numberOf {
      if baseProblem == None {
        return false, t;
      }
      id := |problems|;
      problems := problems + [key];
      numberOf := numberOf[key := id];
      firstSolve := firstSolve[key := None];
    } else {
      id := numberOf[key];
    }
    var solveTime := 0;
    if r.time.Some? {
      solveTime := r.time.value * 60;
      if firstSolve[key].None? || r.time.value * 60 < firstSolve[key].value {
        firstSolve := firstSolve[key := Some(r.time.value * 60)];
      }
    }
    assert firstSolve == t.firstSolve[key := firstSolve[key]];
    var cell := Cell(team, id, solveTime, r.judged, r.solved, false);
    TallyStep(t, es, e, id, numberOf, firstSolve[key], cell);
    ok, t' := true, Tally(problems, numberOf, firstSolve, t.cells + [cell]);
  }

  // ----- one site

  method IncludeTeams(teamData: seq<SiteTeam>, groups: seq<string>, teams: seq<SiteTeam>)
    returns (teams': seq<SiteTeam>, teamIdMap: map<string, nat>)
    ensures teams' == teams + Taking(teamData, groups)
    ensures teamIdMap == Numbering(teamData, groups, |teams|)
  {
    teams', teamIdMap := teams, map[];
    var i := 0;
    while i < |teamData|
      invariant 0 <= i <= |teamData|
      invariant teams' == teams + Taking(teamData[..i], groups)
      invariant teamIdMap == Numbering(teamData[..i], groups, |teams|)
    {
      var team := teamData[i];
      assert teamData[..i + 1][..i] == teamData[..i];
      var included, k := false, 0;
      while k < |team.groups|
        invariant 0 <= k <= |team.groups| && !included
        invariant forall g :: g in team.groups[..k] ==> g !in groups
      {
        if team.groups[k] in groups {
          included := true;
          break;
        }
        k := k + 1;
      }
      assert included == Included(team, groups) by {
        if !included {
          assert team.groups[..k] == team.groups;
        } else {
          assert team.groups[k] in team.groups;
        }
      }
      if included {
        teamIdMap := teamIdMap[team.id := |teams'|];
        teams' := teams' + [team];
      }
      i := i + 1;
    }
    assert teamData[..i] == teamData;
  }

  lemma ResultStep(results: seq<Result>, k: nat, team: nat, names: map<string, string>, es: seq<Entry>)
    requires k < |results|
    ensures es + ResultEntries(results[..k + 1], team, names)
         == (es + ResultEntries(results[..k], team, names)) + [EntryOf(team, names, results[k])]
  {
    assert results[..k + 1][..k] == results[..k];
  }

  lemma {:induction false} ResultsBroken(results: seq<Result>, k: nat, team: nat, names: map<string, string>,
                                         es: seq<Entry>)
    requires k <= |results| && Broken(es + ResultEntries(results[..k], team, names))
    ensures Broken(es + ResultEntries(results, team, names))
    decreases |results| - k
  {
    if k == |results| {
      assert results[..k] == results;
    } else {
      ResultStep(results, k, team, names, es);
      BrokenStep(es + ResultEntries(results[..k], team, names), EntryOf(team, names, results[k]));
      ResultsBroken(results, k + 1, team, names, es);
    }
  }

  method AddRow(t: Tally, results: seq<Result>, team: nat, names: map<string, string>, ghost es: seq<Entry>)
    returns (ok: bool, t': Tally)
    requires Tallied(t, es) && !Broken(es)
    ensures ok == !Broken(es + ResultEntries(results, team, names))
    ensures ok ==> Tallied(t', es + ResultEntries(results, team, names))
  {
    ok, t' := true, t;
    var k := 0;
    assert es + [] == es;
    while k < |results|
      invariant 0 <= k <= |results| && !Broken(es + ResultEntries(results[..k], team, names))
      invariant Tallied(t', es + ResultEntries(results[..k], team, names))
    {
      ResultStep(results, k, team, names, es);
      ok, t' := AddResult(t', team, names, results[k], es + ResultEntries(results[..k], team, names));
      k := k + 1;
      if !ok {
        ResultsBroken(results, k, team, names, es);
        return;
      }
    }
    assert results[..k] == results;
    ok := true;
  }

  lemma RowsStep(rows: seq<ResultRow>, i: nat, numbers: map<string, nat>, names: map<string, string>, es: seq<Entry>)
    requires i < |rows|
    ensures es + RowsEntries(rows[..i + 1], numbers, names)
         == (es + RowsEntries(rows[..i], numbers, names)) + RowEntries(rows[i], numbers, names)
  {
    assert rows[..i + 1][..i] == rows[..i];
  }

  lemma {:induction false} RowsBroken(rows: seq<ResultRow>, i: nat, numbers: map<string, nat>,
                                      names: map<string, string>, es: seq<Entry>)
    requires i <= |rows| && Broken(es + RowsEntries(rows[..i], numbers, names))
    ensures Broken(es + RowsEntries(rows, numbers, names))
    decreases |rows| - i
  {
    if i == |rows| {
      assert rows[..i] == rows;
    } else {
      RowsStep(rows, i, numbers, names, es);
      BrokenStays(es + RowsEntries(rows[..i], numbers, names), RowEntries(rows[i], numbers, names));
      RowsBroken(rows, i + 1, numbers, names, es);
    }
  }

  method AddRows(t: Tally, rows: seq<ResultRow>, teamIdMap: map<string, nat>, names: map<string, string>,
                 ghost es: seq<Entry>)
    returns (ok: bool, t': Tally)
    requires Tallied(t, es) && !Broken(es)
    ensures ok == !Broken(es + RowsEntries(rows, teamIdMap, names))
    ensures ok ==> Tallied(t', es + RowsEntries(rows, teamIdMap, names))
  {
    ok, t' := true, t;
    var i := 0;
    assert es + [] == es;
    while i < |rows|
      invariant 0 <= i <= |rows| && !Broken(es + RowsEntries(rows[..i], teamIdMap, names))
      invariant Tallied(t', es + RowsEntries(rows[..i], teamIdMap, names))
    {
      var row := rows[i];
      RowsStep(rows, i, teamIdMap, names, es);
      ghost var before := es + RowsEntries(rows[..i], teamIdMap, names);
      i := i + 1;
      if row.teamId !in teamIdMap {
        assert before + [] == before;
        continue;
      }
      ok, t' := AddRow(t', row.results, teamIdMap[row.teamId], names, before);
      if !ok {
        RowsBroken(rows, i, teamIdMap, names, es);
        return;
      }
    }
    assert rows[..i] == rows;
    ok := true;
  }

  lemma {:induction false} SitesBroken(sites: seq<Site>, i: nat)
    requires i <= |sites| && Broken(Entries(sites[..i]))
    ensures Broken(Entries(sites))
    decreases |sites| - i
  {
    if i == |sites| {
      assert sites[..i] == sites;
    } else {
      assert sites[..i + 1] == sites[..i] + [sites[i]];
      MergeOne(sites[..i], sites[i]);
      BrokenStays(Entries(sites[..i]), SiteEntries(sites[i], |Roster(sites[..i])|));
      SitesBroken(sites, i + 1);
    }
  }

  lemma MergeOne(sites: seq<Site>, s: Site)
    ensures Entries(sites + [s]) == Entries(sites) + SiteEntries(s, |Roster(sites)|)
    ensures Roster(sites + [s]) == Roster(sites) + Taking(s.teams, s.groups)
  {
    assert (sites + [s])[..|sites|] == sites && (sites + [s])[|sites|] == s;
  }

  /** All sites. Team numbers are positions in teams, and problem numbers positions in t.problems. */
  method MergeSites(sites: seq<Site>) returns (ok: bool, teams: seq<SiteTeam>, t: Tally)
    ensures ok == !Broken(Entries(sites))
    ensures ok ==> teams == Roster(sites) && Tallied(t, Entries(sites))
  {
    ok, teams, t := true, [], Tally([], map[], map[], []);
    var i := 0;
    while i < |sites|
      invariant 0 <= i <= |sites| && !Broken(Entries(sites[..i]))
      invariant teams == Roster(sites[..i]) && Tallied(t, Entries(sites[..i]))
    {
      var site := sites[i];
      assert sites[..i + 1] == sites[..i] + [site];
      MergeOne(sites[..i], site);
      var teamIdMap;
      teams, teamIdMap := IncludeTeams(site.teams, site.groups, teams);
      ok, t := AddRows(t, site.rows, teamIdMap, site.problemNames, Entries(sites[..i]));
      i := i + 1;
      if !ok {
        SitesBroken(sites, i);
        return;
      }
    }
    assert sites[..i] == sites;
    ok := true;
  }

  // ----- first to solve

  /** No timed result on the same problem is earlier, whichever site it comes from. */
  ghost predicate NoneEarlier(es: seq<Entry>, i: nat)
    requires i < |es| && es[i].result.time.Some?
  {
    forall j :: 0 <= j < |es| && TimedOn(es[j], es[i].name) ==> es[i].result.time.value <= es[j].result.time.value
  }

  /** The earliest time on the problem is the default solve time, or there is none. */
  ghost predicate ZeroOrNone(es: seq<Entry>, name: string) {
    || (forall j :: 0 <= j < |es| ==> !TimedOn(es[j], name))
    || ((exists j :: 0 <= j < |es| && TimedOn(es[j], name) && es[j].result.time.value == 0)
        && forall j :: 0 <= j < |es| && TimedOn(es[j], name) ==> 0 <= es[j].result.time.value)
  }

  /** The loose comparison of a solve time, which is a number, with a time that may be null. */
  predicate LooselyEqual(solveTime: int, first: Option<int>) {
    solveTime == if first.Some? then first.value else 0
  }

  lemma MarkedIffNoneEarlier(es: seq<Entry>, i: nat)
    requires i < |es| && es[i].result.time.Some?
    ensures LooselyEqual(SolveTime(es[i].result), Earliest(es, es[i].name)) <==> NoneEarlier(es, i)
  {
    EarliestIsMinimum(es, es[i].name);
    assert TimedOn(es[i], es[i].name);
  }

  /** A result without a time counts as solved at time 0, and a missing earliest time as 0, too. */
  lemma MarkedThoughUntimed(es: seq<Entry>, i: nat)
    requires i < |es| && es[i].result.time.None?
    ensures LooselyEqual(SolveTime(es[i].result), Earliest(es, es[i].name)) <==> ZeroOrNone(es, es[i].name)
  {
    EarliestIsMinimum(es, es[i].name);
  }

  // ----- standings

  datatype Settings = Settings(penaltyTime: int, inSeconds: bool)

  function ScoreTime(seconds: int, settings: Settings): int {
    if settings.inSeconds then seconds else seconds / 60
  }

  function PenaltyTime(submissions: int, settings: Settings): int {
    (submissions - 1) * settings.penaltyTime * (if settings.inSeconds then 60 else 1)
  }

  datatype Standing = Standing(points: int, totalTime: int, lastCorrect: int)

  function Max(a: int, b: int): int {
    if a >= b then a else b
  }

  /** A standing after one more solved problem, which is worth one point. */
  function Solve(s: Standing, solveTime: int, submissions: int, settings: Settings): Standing {
    Standing(s.points + 1, s.totalTime + ScoreTime(solveTime, settings) + PenaltyTime(submissions, settings),
             Max(s.lastCorrect, ScoreTime(solveTime, settings)))
  }

  /** The standing of a team: the fold of its own solved results. */
  function StandingOf(es: seq<Entry>, team: nat, settings: Settings): Standing {
    if es == [] then Standing(0, 0, 0)
    else
      var before, e := StandingOf(es[..|es| - 1], team, settings), es[|es| - 1];
      if e.team == team && e.result.solved
          then Solve(before, SolveTime(e.result), e.result.judged, settings) else before
  }

  // ----- what a standing amounts to

  function Minutes(r: Result): int {
    if r.time.Some? then r.time.value else 0
  }

  /**
   What a solved problem costs: the minute of the solve, and the penalty time for every submission but one.
   In seconds that is 60 times as much.
   */
  function Cost(r: Result, settings: Settings): int {
    (Minutes(r) + (r.judged - 1) * settings.penaltyTime) * (if settings.inSeconds then 60 else 1)
  }

  function When(r: Result, settings: Settings): int {
    Minutes(r) * (if settings.inSeconds then 60 else 1)
  }

  /** The results of the problems that a team has solved. */
  function SolvedBy(es: seq<Entry>, team: nat): seq<Result> {
    if es == [] then []
    else
      var e := es[|es| - 1];
      SolvedBy(es[..|es| - 1], team) + (if e.team == team && e.result.solved then [e.result] else [])
  }

  function TotalCost(rs: seq<Result>, settings: Settings): int {
    if rs == [] then 0 else TotalCost(rs[..|rs| - 1], settings) + Cost(rs[|rs| - 1], settings)
  }

  /** The time of the last solve: no solve is later, and it is one of them, or 0. */
  ghost predicate LastOf(last: int, rs: seq<Result>, settings: Settings) {
    && 0 <= last && (forall r :: r in rs ==> When(r, settings) <= last)
    && (last == 0 || exists r :: r in rs && When(r, settings) == last)
  }

  lemma CostMore(rs: seq<Result>, r: Result, settings: Settings)
    ensures TotalCost(rs + [r], settings) == TotalCost(rs, settings) + Cost(r, settings)
  {
    assert (rs + [r])[..|rs|] == rs;
  }

  lemma SolveCosts(s: Standing, r: Result, settings: Settings)
    ensures Solve(s, SolveTime(r), r.judged, settings) ==
              Standing(s.points + 1, s.totalTime + Cost(r, settings), Max(s.lastCorrect, When(r, settings)))
  {
    if settings.inSeconds {
      assert (r.judged - 1) * settings.penaltyTime * 60 == ((r.judged - 1) * settings.penaltyTime) * 60;
    }
  }

  lemma LastMore(last: int, rs: seq<Result>, r: Result, settings: Settings)
    requires LastOf(last, rs, settings)
    ensures LastOf(Max(last, When(r, settings)), rs + [r], settings)
  {
    assert r in rs + [r];
    if last != 0 {
      var r' :| r' in rs && When(r', settings) == last;
      assert r' in rs + [r];
    }
  }

  /** One point for each problem solved, the sum of what they cost, and the time of the last one. */
  ghost predicate Adds(s: Standing, rs: seq<Result>, settings: Settings) {
    s.points == |rs| && s.totalTime == TotalCost(rs, settings) && LastOf(s.lastCorrect, rs, settings)
  }

  lemma AddsMore(s: Standing, rs: seq<Result>, r: Result, settings: Settings)
    requires Adds(s, rs, settings)
    ensures Adds(Solve(s, SolveTime(r), r.judged, settings), rs + [r], settings)
  {
    CostMore(rs, r, settings);
    SolveCosts(s, r, settings);
    LastMore(s.lastCorrect, rs, r, settings);
  }

  /** A standing adds up the problems that the team has solved. */
  lemma {:induction false} StandingAdds(es: seq<Entry>, team: nat, settings: Settings)
    ensures Adds(StandingOf(es, team, settings), SolvedBy(es, team), settings)
  {
    if es != [] {
      var init, e := es[..|es| - 1], es[|es| - 1];
      StandingAdds(init, team, settings);
      if e.team == team && e.result.solved {
        AddsMore(StandingOf(init, team, settings), SolvedBy(init, team), e.result, settings);
      } else {
        assert SolvedBy(es, team) == SolvedBy(init, team);
      }
    }
  }

  /** The results are those of the problems that the team has solved. */
  lemma {:induction false} SolvedByHolds(es: seq<Entry>, team: nat, r: Result)
    ensures r in SolvedBy(es, team) <==> exists e :: e in es && e.team == team && e.result == r && r.solved
  {
    if es != [] {
      var init, last := es[..|es| - 1], es[|es| - 1];
      SolvedByHolds(init, team, r);
      assert forall e :: e in es <==> e in init || e == last;
    }
  }

  lemma {:induction false} CostWithout(rs: seq<Result>, i: nat, settings: Settings)
    requires i < |rs|
    ensures TotalCost(rs, settings) == TotalCost(rs[..i] + rs[i + 1..], settings) + Cost(rs[i], settings)
  {
    var last := |rs| - 1;
    if i == last {
      assert rs[..i] + rs[i + 1..] == rs[..last];
    } else {
      CostWithout(rs[..last], i, settings);
      var without := rs[..i] + rs[i + 1..];
      assert without[..|without| - 1] == rs[..last][..i] + rs[..last][i + 1..];
    }
  }

  /** A submission more costs the penalty time, a minute more one minute, both in the unit of the score. */
  lemma CostOfOneMore(r: Result, settings: Settings)
    ensures Cost(r.(judged := r.judged + 1), settings) ==
              Cost(r, settings) + settings.penaltyTime * (if settings.inSeconds then 60 else 1)
    ensures Cost(r.(time := Some(Minutes(r) + 1)), settings) == Cost(r, settings) + if settings.inSeconds then 60 else 1
  {
    var p := settings.penaltyTime;
    assert r.judged * p == (r.judged - 1) * p + p;
  }

  lemma StandingFront(es: seq<Entry>, team: nat, settings: Settings)
    requires es != []
    ensures var before, e := StandingOf(es[..|es| - 1], team, settings), es[|es| - 1];
            StandingOf(es, team, settings).totalTime ==
              before.totalTime + if e.team == team && e.result.solved then Cost(e.result, settings) else 0
  {
    var e := es[|es| - 1];
    SolveCosts(StandingOf(es[..|es| - 1], team, settings), e.result, settings);
  }

  /** Another result of a problem that stays solved changes the total by the difference of their costs. */
  lemma {:induction false} TotalChanges(es: seq<Entry>, i: nat, r: Result, settings: Settings)
    requires i < |es| && es[i].result.solved && r.solved
    ensures StandingOf(es[i := es[i].(result := r)], es[i].team, settings).totalTime ==
              StandingOf(es, es[i].team, settings).totalTime - Cost(es[i].result, settings) + Cost(r, settings)
  {
    var es', last := es[i := es[i].(result := r)], |es| - 1;
    StandingFront(es, es[i].team, settings);
    StandingFront(es', es[i].team, settings);
    if i == last {
      assert es'[..last] == es[..last];
    } else {
      TotalChanges(es[..last], i, r, settings);
      assert es'[..last] == es[..last][i := es[i].(result := r)];
    }
  }

  /** So a submission more on a solved problem raises the total of its team by exactly the penalty time. */
  lemma OneMoreSubmission(es: seq<Entry>, i: nat, settings: Settings)
    requires i < |es| && es[i].result.solved
    ensures var es' := es[i := es[i].(result := es[i].result.(judged := es[i].result.judged + 1))];
            StandingOf(es', es[i].team, settings).totalTime ==
              StandingOf(es, es[i].team, settings).totalTime
              + settings.penaltyTime * (if settings.inSeconds then 60 else 1)
  {
    TotalChanges(es, i, es[i].result.(judged := es[i].result.judged + 1), settings);
    CostOfOneMore(es[i].result, settings);
  }

  lemma WithoutOne(rs: seq<Result>, i: nat)
    requires i < |rs|
    ensures multiset(rs[..i] + rs[i + 1..]) == multiset(rs) - multiset{rs[i]}
  {
    assert rs == rs[..i] + [rs[i]] + rs[i + 1..];
  }

  /** The order of the results does not matter for their total. */
  lemma {:induction false} CostOrderFree(rs: seq<Result>, rs': seq<Result>, settings: Settings)
    requires multiset(rs) == multiset(rs')
    ensures TotalCost(rs, settings) == TotalCost(rs', settings)
    decreases |rs|
  {
    if rs == [] {
      assert |multiset(rs')| == 0;
    } else {
      var last := |rs| - 1;
      assert rs[..last] + rs[last + 1..] == rs[..last];
      WithoutOne(rs, last);
      assert rs[last] in multiset(rs');
      var i :| 0 <= i < |rs'| && rs'[i] == rs[last];
      WithoutOne(rs', i);
      CostWithout(rs', i, settings);
      CostOrderFree(rs[..last], rs'[..i] + rs'[i + 1..], settings);
    }
  }

  ghost predicate HasEntry(es: seq<Entry>, team: nat) {
    exists i :: 0 <= i < |es| && es[i].team == team
  }

  datatype RankEntry = RankEntry(points: int, totalTime: int)

  ghost predicate Ranked(ranks: map<nat, RankEntry>, last: map<nat, int>, es: seq<Entry>, settings: Settings) {
    && (forall team :: team in ranks <==> HasEntry(es, team))
    && (forall team :: team in ranks ==> ranks[team].points == StandingOf(es, team, settings).points
                                         && ranks[team].totalTime == StandingOf(es, team, settings).totalTime)
    && (forall team :: team in last ==> team in ranks && last[team] == StandingOf(es, team, settings).lastCorrect)
    && (forall team :: team in ranks && team !in last ==> StandingOf(es, team, settings).lastCorrect == 0)
  }

  lemma StandingStep(es: seq<Entry>, e: Entry, team: nat, settings: Settings)
    ensures StandingOf(es + [e], team, settings)
         == if e.team == team && e.result.solved
             then Solve(StandingOf(es, team, settings), SolveTime(e.result), e.result.judged, settings)
            else StandingOf(es, team, settings)
  {
    assert (es + [e])[..|es|] == es;
  }

  lemma {:induction false} NoEntryNoStanding(es: seq<Entry>, team: nat, settings: Settings)
    requires !HasEntry(es, team)
    ensures StandingOf(es, team, settings) == Standing(0, 0, 0)
  {
    if es != [] {
      var init := es[..|es| - 1];
      assert forall i :: 0 <= i < |init| ==> init[i] == es[i];
      NoEntryNoStanding(init, team, settings);
    }
  }

  lemma HasEntryStep(es: seq<Entry>, e: Entry, team: nat)
    ensures HasEntry(es + [e], team) <==> HasEntry(es, team) || e.team == team
  {
    var es' := es + [e];
    assert forall i :: 0 <= i < |es| ==> es'[i] == es[i];
    assert es'[|es|] == e;
  }

  /** The loop body of the ranking, for one cell. */
  method AddToRank(ranks: map<nat, RankEntry>, last: map<nat, int>, cell: Cell, settings: Settings,
                   ghost es: seq<Entry>, ghost e: Entry)
    returns (ranks': map<nat, RankEntry>, last': map<nat, int>)
    requires Ranked(ranks, last, es, settings) && Scores(cell, e)
    ensures Ranked(ranks', last', es + [e], settings)
  {
    ranks', last' := ranks, last;
    var team := cell.team;
    if team !in ranks' {
      NoEntryNoStanding(es, team, settings);
      ranks' := ranks'[team := RankEntry(0, 0)];
    }
    if cell.correct {
      var entry := ranks'[team];
      var solveTime := ScoreTime(cell.solveTime, settings);
      ranks' := ranks'[team := RankEntry(entry.points + 1,
          entry.totalTime + solveTime + PenaltyTime(cell.submissions, settings))];
      last' := last'[team := Max(if team in last' then last'[team] else 0, solveTime)];
    }
    forall other ensures HasEntry(es + [e], other) <==> HasEntry(es, other) || e.team == other {
      HasEntryStep(es, e, other);
    }
    forall other: nat | other in ranks'
      ensures StandingOf(es + [e], other, settings)
           == if e.team == other && e.result.solved
               then Solve(StandingOf(es, other, settings), SolveTime(e.result), e.result.judged, settings)
              else StandingOf(es, other, settings)
    {
      StandingStep(es, e, other, settings);
    }
  }

  /** A cell with its mark. */
  ghost predicate MarkedCell(c: Cell, e: Entry, es: seq<Entry>, problems: seq<string>) {
    CellOf(c, e, problems) && c.first == LooselyEqual(c.solveTime, Earliest(es, e.name))
  }

  lemma NameKnown(t: Tally, es: seq<Entry>, i: nat)
    requires Tallied(t, es) && i < |es|
    ensures i < |t.cells| && CellOf(t.cells[i], es[i], t.problems) && !t.cells[i].first
    ensures es[i].name in t.firstSolve && t.firstSolve[es[i].name] == Earliest(es, es[i].name)
  {
    assert t.problems[t.cells[i].problem] == es[i].name;
  }

  /** The first i cells carry their marks; the others are as they were. */
  ghost predicate MarkedUpTo(cells: seq<Cell>, i: nat, t: Tally, es: seq<Entry>) {
    && i <= |cells| == |t.cells| == |es|
    && (forall k :: 0 <= k < i ==> MarkedCell(cells[k], es[k], es, t.problems))
    && (forall k :: i <= k < |cells| ==> cells[k] == t.cells[k])
  }

  lemma MarkStep(cells: seq<Cell>, i: nat, t: Tally, es: seq<Entry>, cell: Cell)
    requires MarkedUpTo(cells, i, t, es) && i < |cells| && MarkedCell(cell, es[i], es, t.problems)
    ensures MarkedUpTo(cells[i := cell], i + 1, t, es)
  {
  }

  lemma Prefix(es: seq<Entry>, i: nat)
    requires i < |es|
    ensures es[..i] + [es[i]] == es[..i + 1]
  {
  }

  method MarkAndRank(t: Tally, settings: Settings, ghost es: seq<Entry>)
    returns (cells: seq<Cell>, ranks: map<nat, RankEntry>, last: map<nat, int>)
    requires Tallied(t, es)
    ensures MarkedUpTo(cells, |es|, t, es)
    ensures Ranked(ranks, last, es, settings)
  {
    cells, ranks, last := t.cells, map[], map[];
    var i := 0;
    while i < |cells|
      invariant 0 <= i <= |es| && MarkedUpTo(cells, i, t, es)
      invariant Ranked(ranks, last, es[..i], settings)
    {
      NameKnown(t, es, i);
      var cell := cells[i];
      if LooselyEqual(cell.solveTime, t.firstSolve[t.problems[cell.problem]]) {
        cell := cell.(first := true);
      }
      MarkStep(cells, i, t, es, cell);
      cells := cells[i := cell];
      ranks, last := AddToRank(ranks, last, cell, settings, es[..i], es[i]);
      Prefix(es, i);
      i := i + 1;
    }
    assert es[..i] == es;
  }

  /** Ranks and last solves add up the problems that each team has solved. */
  ghost predicate RanksAdd(ranks: map<nat, RankEntry>, last: map<nat, int>, es: seq<Entry>, settings: Settings) {
    && (forall team :: team in ranks <==> HasEntry(es, team))
    && (forall team :: team in last ==> team in ranks)
    && forall team :: team in ranks ==>
         Adds(Standing(ranks[team].points, ranks[team].totalTime, if team in last then last[team] else 0),
              SolvedBy(es, team), settings)
  }

  lemma RankedAdds(ranks: map<nat, RankEntry>, last: map<nat, int>, es: seq<Entry>, settings: Settings)
    requires Ranked(ranks, last, es, settings)
    ensures RanksAdd(ranks, last, es, settings)
  {
    forall team | team in ranks
      ensures Adds(Standing(ranks[team].points, ranks[team].totalTime, if team in last then last[team] else 0),
                   SolvedBy(es, team), settings)
    {
      StandingAdds(es, team, settings);
    }
  }

  // ----- the whole merge

  ghost predicate Marks(cells: seq<Cell>, es: seq<Entry>)
    requires |cells| == |es|
  {
    forall i :: 0 <= i < |es| ==>
      if es[i].result.time.Some? then cells[i].first <==> NoneEarlier(es, i)
      else cells[i].first <==> ZeroOrNone(es, es[i].name)
  }

  /**
   The merged scoreboard. A timed cell is first to solve exactly if no included team of any site
   was faster on the problem of that name. A cell without a time is marked, too, if nobody has a
   time for the problem or the best time is 0.
   */
  method Execute(sites: seq<Site>, settings: Settings)
    returns (ok: bool, teams: seq<SiteTeam>, problems: seq<string>, cells: seq<Cell>, ranks: map<nat, RankEntry>,
              last: map<nat, int>)
    ensures ok == !Broken(Entries(sites))
    ensures ok ==> teams == Roster(sites) && problems == Names(Entries(sites))
    ensures ok ==> |cells| == |Entries(sites)| && forall i :: 0 <= i < |cells| ==>
              CellOf(cells[i], Entries(sites)[i], problems)
    ensures ok ==> Marks(cells, Entries(sites))
    ensures ok ==> Ranked(ranks, last, Entries(sites), settings) && RanksAdd(ranks, last, Entries(sites), settings)
  {
    problems, cells, ranks, last := [], [], map[], map[];
    var t;
    ok, teams, t := MergeSites(sites);
    if !ok {
      return;
    }
    ghost var es := Entries(sites);
    problems := t.problems;
    cells, ranks, last := MarkAndRank(t, settings, es);
    RankedAdds(ranks, last, es, settings);
    forall i | 0 <= i < |es|
      ensures CellOf(cells[i], es[i], problems)
      ensures if es[i].result.time.Some? then cells[i].first <==> NoneEarlier(es, i)
              else cells[i].first <==> ZeroOrNone(es, es[i].name)
    {
      assert MarkedCell(cells[i], es[i], es, t.problems);
      if es[i].result.time.Some? {
        MarkedIffNoneEarlier(es, i);
      } else {
        MarkedThoughUntimed(es, i);
      }
    }
  }

  // ----- other sites do not matter for a standing

  lemma {:induction false} StandingSkips(a: seq<Entry>, b: seq<Entry>, team: nat, settings: Settings)
    requires !HasEntry(b, team)
    ensures StandingOf(a + b, team, settings) == StandingOf(a, team, settings)
  {
    if b == [] {
      assert a + b == a;
    } else {
      var last := |b| - 1;
      assert a + b == (a + b[..last]) + [b[last]];
      assert forall i :: 0 <= i < last ==> b[..last][i] == b[i];
      StandingStep(a + b[..last], b[last], team, settings);
      StandingSkips(a, b[..last], team, settings);
    }
  }

  lemma {:induction false} StandingStartsLate(a: seq<Entry>, b: seq<Entry>, team: nat, settings: Settings)
    requires !HasEntry(a, team)
    ensures StandingOf(a + b, team, settings) == StandingOf(b, team, settings)
  {
    if b == [] {
      assert a + b == a;
      NoEntryNoStanding(a, team, settings);
    } else {
      var last := |b| - 1;
      assert a + b == (a + b[..last]) + [b[last]];
      StandingStep(a + b[..last], b[last], team, settings);
      StandingStartsLate(a, b[..last], team, settings);
    }
  }

  ghost predicate TeamsBetween(es: seq<Entry>, low: nat, high: nat) {
    forall i :: 0 <= i < |es| ==> low <= es[i].team < high
  }

  lemma {:induction false} ResultTeams(results: seq<Result>, team: nat, names: map<string, string>)
    ensures TeamsBetween(ResultEntries(results, team, names), team, team + 1)
  {
    if results != [] {
      ResultTeams(results[..|results| - 1], team, names);
    }
  }

  lemma {:induction false} RowsTeams(rows: seq<ResultRow>, numbers: map<string, nat>, names: map<string, string>,
                                     low: nat, high: nat)
    requires forall id :: id in numbers ==> low <= numbers[id] < high
    ensures TeamsBetween(RowsEntries(rows, numbers, names), low, high)
  {
    if rows != [] {
      var last := |rows| - 1;
      RowsTeams(rows[..last], numbers, names, low, high);
      if rows[last].teamId in numbers {
        ResultTeams(rows[last].results, numbers[rows[last].teamId], names);
      }
    }
  }

  lemma SiteTeams(s: Site, base: nat)
    ensures TeamsBetween(SiteEntries(s, base), base, base + |Taking(s.teams, s.groups)|)
  {
    NumberingShifts(s.teams, s.groups, base);
    NumberingFindsTeam(s.teams, s.groups);
    RowsTeams(s.rows, Numbering(s.teams, s.groups, base), s.problemNames, base, base + |Taking(s.teams, s.groups)|);
  }

  lemma {:induction false} AllTeams(sites: seq<Site>)
    ensures TeamsBetween(Entries(sites), 0, |Roster(sites)|)
  {
    if sites != [] {
      var last := |sites| - 1;
      AllTeams(sites[..last]);
      SiteTeams(sites[last], |Roster(sites[..last])|);
    }
  }

  /** The same entries with every team number raised by base. */
  function Shifted(es: seq<Entry>, base: nat): seq<Entry> {
    if es == [] then []
    else
      var e := es[|es| - 1];
      Shifted(es[..|es| - 1], base) + [e.(team := base + e.team)]
  }

  lemma ShiftedStep(es: seq<Entry>, e: Entry, base: nat)
    ensures Shifted(es + [e], base) == Shifted(es, base) + [e.(team := base + e.team)]
  {
    assert (es + [e])[..|es|] == es;
  }

  lemma {:induction false} ShiftedAppend(a: seq<Entry>, b: seq<Entry>, base: nat)
    ensures Shifted(a + b, base) == Shifted(a, base) + Shifted(b, base)
  {
    if b == [] {
      assert a + b == a;
    } else {
      var init, e := b[..|b| - 1], b[|b| - 1];
      assert a + b == (a + init) + [e];
      ShiftedStep(a + init, e, base);
      ShiftedAppend(a, init, base);
    }
  }

  lemma {:induction false} ResultsShift(results: seq<Result>, team: nat, names: map<string, string>, base: nat)
    ensures ResultEntries(results, base + team, names) == Shifted(ResultEntries(results, team, names), base)
  {
    if results != [] {
      var last := |results| - 1;
      ResultsShift(results[..last], team, names, base);
      ShiftedStep(ResultEntries(results[..last], team, names), EntryOf(team, names, results[last]), base);
    }
  }

  lemma RowShift(row: ResultRow, numbers: map<string, nat>, numbers': map<string, nat>, names: map<string, string>,
                 base: nat)
    requires row.teamId in numbers <==> row.teamId in numbers'
    requires row.teamId in numbers ==> numbers'[row.teamId] == base + numbers[row.teamId]
    ensures RowEntries(row, numbers', names) == Shifted(RowEntries(row, numbers, names), base)
  {
    if row.teamId in numbers {
      ResultsShift(row.results, numbers[row.teamId], names, base);
    }
  }

  lemma {:induction false} RowsShift(rows: seq<ResultRow>, numbers: map<string, nat>, numbers': map<string, nat>,
                                     names: map<string, string>, base: nat)
    requires numbers'.Keys == numbers.Keys && forall id :: id in numbers ==> numbers'[id] == base + numbers[id]
    ensures RowsEntries(rows, numbers', names) == Shifted(RowsEntries(rows, numbers, names), base)
  {
    if rows != [] {
      var last := |rows| - 1;
      RowsShift(rows[..last], numbers, numbers', names, base);
      RowShift(rows[last], numbers, numbers', names, base);
      ShiftedAppend(RowsEntries(rows[..last], numbers, names), RowEntries(rows[last], numbers, names), base);
    }
  }

  lemma {:induction false} ShiftedStanding(es: seq<Entry>, team: nat, base: nat, settings: Settings)
    ensures StandingOf(Shifted(es, base), base + team, settings) == StandingOf(es, team, settings)
  {
    if es != [] {
      var init := es[..|es| - 1];
      var e := es[|es| - 1];
      ShiftedStanding(init, team, base, settings);
      StandingStep(Shifted(init, base), e.(team := base + e.team), base + team, settings);
    }
  }

  lemma SiteStanding(s: Site, base: nat, team: nat, settings: Settings)
    ensures StandingOf(SiteEntries(s, base), base + team, settings) == StandingOf(SiteEntries(s, 0), team, settings)
  {
    NumberingShifts(s.teams, s.groups, base);
    RowsShift(s.rows, Numbering(s.teams, s.groups, 0), Numbering(s.teams, s.groups, base), s.problemNames, base);
    ShiftedStanding(SiteEntries(s, 0), team, base, settings);
  }

  /** A team of the last site, the numbers before base being those of other teams. */
  lemma StandingInLast(es: seq<Entry>, s: Site, base: nat, k: nat, settings: Settings)
    requires TeamsBetween(es, 0, base)
    ensures StandingOf(es + SiteEntries(s, base), base + k, settings) == StandingOf(SiteEntries(s, 0), k, settings)
  {
    StandingStartsLate(es, SiteEntries(s, base), base + k, settings);
    SiteStanding(s, base, k, settings);
  }

  lemma StandingNotInLast(es: seq<Entry>, s: Site, base: nat, team: nat, settings: Settings)
    requires team < base
    ensures StandingOf(es + SiteEntries(s, base), team, settings) == StandingOf(es, team, settings)
  {
    SiteTeams(s, base);
    StandingSkips(es, SiteEntries(s, base), team, settings);
  }

  /** Team number n of the merged sites is the given team, with the given standing. */
  ghost predicate Stands(sites: seq<Site>, n: nat, team: SiteTeam, standing: Standing, settings: Settings) {
    n < |Roster(sites)| && Roster(sites)[n] == team && StandingOf(Entries(sites), n, settings) == standing
  }

  /** What the site alone says about its k-th included team. */
  ghost predicate Own(s: Site, k: nat, team: SiteTeam, standing: Standing, settings: Settings) {
    k < |Taking(s.teams, s.groups)| && team == Taking(s.teams, s.groups)[k]
    && standing == StandingOf(SiteEntries(s, 0), k, settings)
  }

  lemma OwnAfter(es: seq<Entry>, s: Site, base: nat, k: nat, n: nat, team: SiteTeam, standing: Standing,
                 settings: Settings)
    requires TeamsBetween(es, 0, base) && Own(s, k, team, standing, settings) && n == base + k
    ensures StandingOf(es + SiteEntries(s, base), n, settings) == standing
  {
    StandingInLast(es, s, base, k, settings);
  }

  lemma OwnPlace(roster: seq<SiteTeam>, s: Site, k: nat, n: nat, team: SiteTeam, standing: Standing, settings: Settings)
    requires Own(s, k, team, standing, settings) && n == |roster| + k
    ensures n < |roster + Taking(s.teams, s.groups)| && (roster + Taking(s.teams, s.groups))[n] == team
  {
  }

  lemma StandsInLast(before: seq<Site>, s: Site, k: nat, base: nat, n: nat, team: SiteTeam, standing: Standing,
                     settings: Settings)
    requires Own(s, k, team, standing, settings) && base == |Roster(before)| && n == base + k
    ensures Stands(before + [s], n, team, standing, settings)
  {
    MergeOne(before, s);
    AllTeams(before);
    OwnAfter(Entries(before), s, base, k, n, team, standing, settings);
    OwnPlace(Roster(before), s, k, n, team, standing, settings);
  }

  lemma StandsWithOneMore(sites: seq<Site>, s: Site, n: nat, team: SiteTeam, standing: Standing, settings: Settings)
    requires Stands(sites, n, team, standing, settings)
    ensures Stands(sites + [s], n, team, standing, settings)
  {
    MergeOne(sites, s);
    StandingNotInLast(Entries(sites), s, |Roster(sites)|, n, settings);
  }

  lemma {:induction false} StandsWithMore(sites: seq<Site>, after: seq<Site>, n: nat, team: SiteTeam,
                                          standing: Standing, settings: Settings)
    requires Stands(sites, n, team, standing, settings)
    ensures Stands(sites + after, n, team, standing, settings)
    decreases |after|
  {
    if after == [] {
      assert sites + after == sites;
    } else {
      var init, last := after[..|after| - 1], after[|after| - 1];
      assert sites + after == (sites + init) + [last];
      StandsWithMore(sites, init, n, team, standing, settings);
      StandsWithOneMore(sites + init, last, n, team, standing, settings);
    }
  }

  /**
   The k-th included team of a site is numbered after the teams of the sites before, and keeps the
   standing that its site alone gives it, whatever other sites are merged before and after.
   */
  lemma StandingIsOwn(before: seq<Site>, s: Site, after: seq<Site>, k: nat, n: nat, team: SiteTeam, standing: Standing,
                      settings: Settings)
    requires Own(s, k, team, standing, settings) && n == |Roster(before)| + k
    ensures Stands(before + [s] + after, n, team, standing, settings)
  {
    StandsInLast(before, s, k, |Roster(before)|, n, team, standing, settings);
    StandsWithMore(before + [s], after, n, team, standing, settings);
  }

  // ----- examples

  function SmallSite(names: map<string, string>, result: Result): Site {
    Site(["g"], [SiteTeam("t", "Team", ["g"])], names, [ResultRow("t", [result])])
  }

  lemma SmallEntries(names: map<string, string>, result: Result)
    ensures Entries([SmallSite(names, result)]) == [EntryOf(0, names, result)]
  {
    var s := SmallSite(names, result);
    assert [s][..0] == [] && s.teams[..0] == [] && s.rows[..0] == [] && [result][..0] == [];
    assert "g" in s.teams[0].groups && "g" in s.groups;
    assert Numbering(s.teams, s.groups, 0) == map["t" := 0];
    assert ResultEntries([result], 0, names) == ResultEntries([], 0, names) + [EntryOf(0, names, result)];
    assert RowsEntries(s.rows, map["t" := 0], names) ==
        RowsEntries([], map["t" := 0], names) + RowEntries(s.rows[0], map["t" := 0], names);
    assert Entries([s]) == Entries([]) + SiteEntries(s, |Roster([])|);
  }

  /** A single result on a problem that the site does not describe breaks the merge. */
  lemma UndescribedProblemBreaks()
    ensures Broken(Entries([SmallSite(map[], Result("a", None, 0, false))]))
  {
    var result := Result("a", None, 0, false);
    SmallEntries(map[], result);
    var es := [EntryOf(0, map[], result)];
    assert es[..0] == [];
    assert !es[0].described && es[0].name !in Names([]);
  }

  /** A team that has not solved the only problem is marked as the first to solve it. */
  lemma UnsolvedIsMarked()
    ensures var es := Entries([SmallSite(map["a" := "A"], Result("a", None, 3, false))]);
            |es| == 1 && !Broken(es) && !es[0].result.solved &&
                LooselyEqual(SolveTime(es[0].result), Earliest(es, es[0].name))
  {
    var result := Result("a", None, 3, false);
    SmallEntries(map["a" := "A"], result);
    var es := [EntryOf(0, map["a" := "A"], result)];
    DescribedNotBroken(es);
    MarkedThoughUntimed(es, 0);
  }
}
