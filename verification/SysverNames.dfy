/** Naming the history tables, trigger functions and triggers of a whole plan: every claimed
    name is new in its PostgreSQL namespace. */
module SysverNames {
  import opened Text
  import opened Temporal
  import opened Numerals
  import opened Identifiers

  datatype PlanTable = PlanTable(name: Name, versioned: bool)

  // The names claimed for one emulated table.
  datatype Claim = Claim(table: Name, history: Name, stampFn: Name, histFn: Name, stampTrigger: Name, histTrigger: Name)

  const SUFFIX_HISTORY := "_history"
  const SUFFIX_STAMP_FN := "_sysver_stamp_fn"
  const SUFFIX_HISTORY_FN := "_sysver_history_fn"
  const SUFFIX_STAMP := "_sysver_stamp"
  const SUFFIX_HISTORY_TRG := "_sysver_history"

  // Longest suffix the emulation numbers, and the digits left before a name could overflow.
  const LONGEST_SUFFIX := 18

  // Fewer than 10^36 names are taken: numbering never pushes a name past the limit.
  predicate Numberable(count: nat) {
    |Digits(count + 1)| <= MAX_IDENT_LEN - 9 - LONGEST_SUFFIX
  }

  lemma {:induction false} DigitsMonotone(m: nat, n: nat)
    requires m <= n
    ensures |Digits(m)| <= |Digits(n)|
  {
    if m >= 10 {
      DigitsMonotone(m / 10, n / 10);
    }
  }

  lemma CandidateFits(base: Name, suffix: Name, count: nat, k: nat)
    requires |suffix| <= LONGEST_SUFFIX && Numberable(count) && k <= count + 1
    ensures |Candidate(base, suffix, k)| <= MAX_IDENT_LEN
  {
    FitsExactly(base, suffix + Number(k));
    DigitsMonotone(k, count + 1);
  }

  // The names already in use, per namespace, as PostgreSQL stores them.
  class Taken {
    var relations: set<Name>
    var functions: set<Name>
    var triggers: map<Name, set<Name>>

    constructor (relations: set<Name>, functions: set<Name>, triggers: map<Name, set<Name>>)
      ensures this.relations == relations && this.functions == functions && this.triggers == triggers
    {
      this.relations := relations;
      this.functions := functions;
      this.triggers := triggers;
    }

    method ClaimRelation(base: Name, suffix: Name) returns (name: Name)
      requires NumberedApart(suffix) && |suffix| <= LONGEST_SUFFIX
      modifies this`relations
      ensures exists k :: FirstFree(base, suffix, old(relations), k) && name == Candidate(base, suffix, k)
      ensures Lower(name) !in old(relations)
      ensures Numberable(|old(relations)|) ==> |name| <= MAX_IDENT_LEN
      ensures relations == old(relations) + {Lower(name)}
    {
      ghost var k;
      name, k := FreeIdent(base, suffix, relations);
      if Numberable(|relations|) {
        CandidateFits(base, suffix, |relations|, k);
      }
      relations := relations + {Lower(name)};
    }

    method ClaimFunction(base: Name, suffix: Name) returns (name: Name)
      requires NumberedApart(suffix) && |suffix| <= LONGEST_SUFFIX
      modifies this`functions
      ensures exists k :: FirstFree(base, suffix, old(functions), k) && name == Candidate(base, suffix, k)
      ensures Lower(name) !in old(functions)
      ensures Numberable(|old(functions)|) ==> |name| <= MAX_IDENT_LEN
      ensures functions == old(functions) + {Lower(name)}
    {
      ghost var k;
      name, k := FreeIdent(base, suffix, functions);
      if Numberable(|functions|) {
        CandidateFits(base, suffix, |functions|, k);
      }
      functions := functions + {Lower(name)};
    }

    function TriggersOn(table: Name): set<Name>
      reads this
    {
      if Stored(table) in triggers then triggers[Stored(table)] else {}
    }

    method ClaimTrigger(table: Name, suffix: Name) returns (name: Name)
      requires NumberedApart(suffix) && |suffix| <= LONGEST_SUFFIX
      modifies this`triggers
      ensures exists k :: FirstFree(table, suffix, old(TriggersOn(table)), k) && name == Candidate(table, suffix, k)
      ensures Lower(name) !in old(TriggersOn(table))
      ensures Numberable(|old(TriggersOn(table))|) ==> |name| <= MAX_IDENT_LEN
      ensures triggers == old(triggers)[Stored(table) := old(TriggersOn(table)) + {Lower(name)}]
    {
      ghost var k;
      name, k := FreeIdent(table, suffix, TriggersOn(table));
      if Numberable(|TriggersOn(table)|) {
        CandidateFits(table, suffix, |TriggersOn(table)|, k);
      }
      triggers := triggers[Stored(table) := TriggersOn(table) + {Lower(name)}];
    }

    // The stamping function of a table, then its history function.
    method ClaimFunctionPair(table: Name) returns (stamp: Name, hist: Name)
      modifies this`functions
      ensures Lower(stamp) != Lower(hist) && {Lower(stamp), Lower(hist)} !! old(functions)
      ensures functions == old(functions) + {Lower(stamp), Lower(hist)}
    {
      hide Lower, Stored, FirstFree, Candidate;
      stamp := ClaimFunction(table, SUFFIX_STAMP_FN);
      hist := ClaimFunction(table, SUFFIX_HISTORY_FN);
    }

    // The stamping trigger of a table, then its history trigger.
    method ClaimTriggerPair(table: Name) returns (stamp: Name, hist: Name)
      modifies this`triggers
      ensures Lower(stamp) != Lower(hist) && {Lower(stamp), Lower(hist)} !! old(TriggersOn(table))
      ensures triggers == old(triggers)[Stored(table) := old(TriggersOn(table)) + {Lower(stamp), Lower(hist)}]
    {
      hide Lower, Stored, FirstFree, Candidate;
      ghost var was := TriggersOn(table);
      stamp := ClaimTrigger(table, SUFFIX_STAMP);
      assert TriggersOn(table) == was + {Lower(stamp)};
      hist := ClaimTrigger(table, SUFFIX_HISTORY_TRG);
      assert was + {Lower(stamp)} + {Lower(hist)} == was + {Lower(stamp), Lower(hist)};
    }
  }

  // The names claimed so far are in use now, were free at the start, and differ pairwise in
  // their namespace.
  ghost predicate FreshRelations(cs: seq<Claim>, before: set<Name>, now: set<Name>) {
    && before <= now
    && (forall i :: 0 <= i < |cs| ==> Lower(cs[i].history) in now - before)
    && (forall i, j :: 0 <= i < j < |cs| ==> Lower(cs[i].history) != Lower(cs[j].history))
  }

  function FunctionsOf(c: Claim): set<Name> {
    {Lower(c.stampFn), Lower(c.histFn)}
  }

  ghost predicate FreshFunctions(cs: seq<Claim>, before: set<Name>, now: set<Name>) {
    && before <= now
    && (forall i :: 0 <= i < |cs| ==> Lower(cs[i].stampFn) != Lower(cs[i].histFn) && FunctionsOf(cs[i]) <= now - before)
    && (forall i, j :: 0 <= i < j < |cs| ==> FunctionsOf(cs[i]) !! FunctionsOf(cs[j]))
  }

  function On(triggers: map<Name, set<Name>>, table: Name): set<Name> {
    if Stored(table) in triggers then triggers[Stored(table)] else {}
  }

  function TriggersOf(c: Claim): set<Name> {
    {Lower(c.stampTrigger), Lower(c.histTrigger)}
  }

  ghost predicate FreshTriggers(cs: seq<Claim>, before: map<Name, set<Name>>, now: map<Name, set<Name>>) {
    && (forall t: Name :: On(before, t) <= On(now, t))
    && (forall i :: 0 <= i < |cs| ==>
          Lower(cs[i].stampTrigger) != Lower(cs[i].histTrigger) &&
          TriggersOf(cs[i]) <= On(now, cs[i].table) - On(before, cs[i].table))
    && (forall i, j :: 0 <= i < j < |cs| && Stored(cs[i].table) == Stored(cs[j].table) ==>
          TriggersOf(cs[i]) !! TriggersOf(cs[j]))
  }

  lemma NoneFresh(relations: set<Name>, functions: set<Name>, triggers: map<Name, set<Name>>)
    ensures FreshRelations([], relations, relations) && FreshFunctions([], functions, functions)
    ensures FreshTriggers([], triggers, triggers)
  {}

  lemma MoreRelations(cs: seq<Claim>, c: Claim, before: set<Name>, now: set<Name>)
    requires FreshRelations(cs, before, now) && Lower(c.history) !in now
    ensures FreshRelations(cs + [c], before, now + {Lower(c.history)})
  {
    hide Lower;
  }

  lemma MoreFunctions(cs: seq<Claim>, c: Claim, before: set<Name>, now: set<Name>)
    requires FreshFunctions(cs, before, now) && Lower(c.stampFn) != Lower(c.histFn) && FunctionsOf(c) !! now
    ensures FreshFunctions(cs + [c], before, now + FunctionsOf(c))
  {
    hide Lower;
  }

  lemma MoreTriggers(cs: seq<Claim>, c: Claim, before: map<Name, set<Name>>, now: map<Name, set<Name>>)
    requires FreshTriggers(cs, before, now) && Lower(c.stampTrigger) != Lower(c.histTrigger)
    requires TriggersOf(c) !! On(now, c.table)
    ensures FreshTriggers(cs + [c], before, now[Stored(c.table) := On(now, c.table) + TriggersOf(c)])
  {
    hide Lower, Stored;
  }

  function Emulated(tables: seq<PlanTable>): seq<Name> {
    if tables == [] then []
    else
      var last := tables[|tables| - 1];
      Emulated(tables[..|tables| - 1]) + (if last.versioned then [last.name] else [])
  }

  // Wherever it stands, a versioned table is emulated between those before it and those after it, and another one
  // is left out.
  lemma {:induction false} EmulatedExactly(before: seq<PlanTable>, t: PlanTable, after: seq<PlanTable>)
    ensures Emulated([]) == [] && Emulated(before + [t] + after) ==
      Emulated(before) + (if t.versioned then [t.name] else []) + Emulated(after)
  {
    var all := before + [t] + after;
    if after == [] {
      assert all[..|all| - 1] == before && all[|all| - 1] == t;
    } else {
      var n := |after| - 1;
      EmulatedExactly(before, t, after[..n]);
      assert all[..|all| - 1] == before + [t] + after[..n] && all[|all| - 1] == after[n];
    }
  }

  function HistoryTables(cs: seq<Claim>): seq<PlanTable> {
    seq(|cs|, i requires 0 <= i < |cs| => PlanTable(cs[i].history, false))
  }

  class Plan {
    var tables: seq<PlanTable>

    constructor (tables: seq<PlanTable>)
      ensures this.tables == tables
    {
      this.tables := tables;
    }

    method ClaimNames(table: Name, taken: Taken) returns (c: Claim)
      modifies taken
      ensures c.table == table
      ensures Lower(c.history) !in old(taken.relations) && taken.relations == old(taken.relations) + {Lower(c.history)}
      ensures Lower(c.stampFn) != Lower(c.histFn) && FunctionsOf(c) !! old(taken.functions)
      ensures taken.functions == old(taken.functions) + FunctionsOf(c)
      ensures Lower(c.stampTrigger) != Lower(c.histTrigger) && TriggersOf(c) !! old(taken.TriggersOn(table))
      ensures taken.triggers == old(taken.triggers)[Stored(table) := old(taken.TriggersOn(table)) + TriggersOf(c)]
    {
      hide Lower, Stored, FirstFree, Candidate;
      var history := taken.ClaimRelation(table, SUFFIX_HISTORY);
      var stampFn, histFn := taken.ClaimFunctionPair(table);
      var stamp, hist := taken.ClaimTriggerPair(table);
      c := Claim(table, history, stampFn, histFn, stamp, hist);
    }

    // One claim per system-versioned table, in plan order; the history tables join the plan.
    method EmitSystemVersioning(taken: Taken) returns (cs: seq<Claim>)
      modifies this, taken
      ensures |cs| == |Emulated(old(tables))| && forall i :: 0 <= i < |cs| ==> cs[i].table == Emulated(old(tables))[i]
      ensures tables == old(tables) + HistoryTables(cs)
      ensures FreshRelations(cs, old(taken.relations), taken.relations)
      ensures FreshFunctions(cs, old(taken.functions), taken.functions)
      ensures FreshTriggers(cs, old(taken.triggers), taken.triggers)
    {
      hide Lower, Stored, FreshRelations, FreshFunctions, FreshTriggers;
      cs := [];
      NoneFresh(taken.relations, taken.functions, taken.triggers);
      var n := |tables|;
      var i := 0;
      while i < n
        invariant i <= n && n == |old(tables)|
        invariant |cs| == |Emulated(old(tables)[..i])|
        invariant forall k :: 0 <= k < |cs| ==> cs[k].table == Emulated(old(tables)[..i])[k]
        invariant tables == old(tables) + HistoryTables(cs)
        invariant FreshRelations(cs, old(taken.relations), taken.relations)
        invariant FreshFunctions(cs, old(taken.functions), taken.functions)
        invariant FreshTriggers(cs, old(taken.triggers), taken.triggers)
      {
        assert old(tables)[..i + 1][..i] == old(tables)[..i];
        assert tables[i] == old(tables)[i];
        if tables[i].versioned {
          ghost var relations, functions, triggers := taken.relations, taken.functions, taken.triggers;
          var c := ClaimNames(tables[i].name, taken);
          MoreRelations(cs, c, old(taken.relations), relations);
          MoreFunctions(cs, c, old(taken.functions), functions);
          MoreTriggers(cs, c, old(taken.triggers), triggers);
          cs := cs + [c];
          tables := tables + [PlanTable(c.history, false)];
        }
        i := i + 1;
      }
      assert old(tables)[..n] == old(tables);
    }
  }

  // When every relation of the plan was counted as taken, a history table never has the stored
  // name of another relation of the resulting plan.
  lemma NoRelationClash(tables: seq<PlanTable>, cs: seq<Claim>, before: set<Name>, now: set<Name>, i: nat, j: nat)
    requires FreshRelations(cs, before, now)
    requires forall t <- tables :: Stored(t.name) in before
    requires forall c <- cs :: |c.history| <= MAX_IDENT_LEN
    requires i < j < |tables| + |cs| && |tables| <= j
    ensures var all := tables + HistoryTables(cs); Stored(all[i].name) != Stored(all[j].name)
  {
    var all := tables + HistoryTables(cs);
    HistoryStored(tables, cs, j);
    if i < |tables| {
      assert all[i] == tables[i];
    } else {
      HistoryStored(tables, cs, i);
    }
  }

  lemma HistoryStored(tables: seq<PlanTable>, cs: seq<Claim>, k: nat)
    requires |tables| <= k < |tables| + |cs| && forall c <- cs :: |c.history| <= MAX_IDENT_LEN
    ensures Stored((tables + HistoryTables(cs))[k].name) == Lower(cs[k - |tables|].history)
  {
    assert cs[k - |tables|] in cs;
  }
}
