/** Ownership of NRPT rules over whole histories, when installed rules take effect,
    and what a crash in the middle of an install leaves behind. */
module NrptLaws {
  import opened Nets
  import opened Nrpt

  function Elems(ids: seq<Id>): set<Id> {
    set id | id in ids
  }

  // -------------------------------------------------- closed forms of the writes

  function PutMap(m: map<Id, Body>, rules: seq<Rule>): map<Id, Body> {
    if rules == [] then m
    else PutMap(m, rules[..|rules| - 1])[rules[|rules| - 1].id := rules[|rules| - 1].body]
  }

  lemma {:induction false} ExecDeletes(reg: Registry, ids: seq<Id>)
    ensures Exec(reg, DeleteWrites(ids))
         == reg.(local := reg.local - Elems(ids), gp := if reg.gp.Some? then Some(reg.gp.value - Elems(ids)) else None)
  {
    if ids != [] {
      var init, last := ids[..|ids| - 1], ids[|ids| - 1];
      ExecDeletes(reg, init);
      ExecTwo(reg, DeleteWrites(init), DeleteLocal(last), DeleteGp(last));
      assert Elems(ids) == Elems(init) + {last};
      assert reg.local - Elems(init) - {last} == reg.local - Elems(ids);
      assert reg.gp.Some? ==> reg.gp.value - Elems(init) - {last} == reg.gp.value - Elems(ids);
    } else {
      assert Elems(ids) == {} && reg.local - {} == reg.local;
      assert reg.gp.Some? ==> reg.gp.value - {} == reg.gp.value;
    }
  }

  lemma {:induction false} ExecPuts(reg: Registry, rules: seq<Rule>, mirror: bool)
    requires mirror ==> reg.gp.Some?
    ensures Exec(reg, PutWrites(rules, mirror))
         == reg.(local := PutMap(reg.local, rules), gp := if mirror then Some(PutMap(reg.gp.value, rules)) else reg.gp)
  {
    if rules != [] {
      var init, last := rules[..|rules| - 1], rules[|rules| - 1];
      ExecPuts(reg, init, mirror);
      if mirror {
        ExecTwo(reg, PutWrites(init, mirror), PutLocal(last), PutGp(last));
      } else {
        ExecAppend(reg, PutWrites(init, mirror), [PutLocal(last)]);
        ExecOne(Exec(reg, PutWrites(init, mirror)), PutLocal(last));
      }
    }
  }

  lemma {:induction false} PutMapKeys(m: map<Id, Body>, rules: seq<Rule>)
    ensures PutMap(m, rules).Keys == m.Keys + Elems(Ids(rules))
    ensures forall id :: id in m && id !in Ids(rules) ==> PutMap(m, rules)[id] == m[id]
  {
    if rules != [] {
      var init, last := rules[..|rules| - 1], rules[|rules| - 1];
      PutMapKeys(m, init);
      assert Ids(rules) == Ids(init) + [last.id];
      assert Elems(Ids(rules)) == Elems(Ids(init)) + {last.id};
    }
  }

  lemma {:induction false} PutMapAt(m: map<Id, Body>, rules: seq<Rule>, i: nat)
    requires Distinct(Ids(rules)) && i < |rules|
    ensures rules[i].id in PutMap(m, rules) && PutMap(m, rules)[rules[i].id] == rules[i].body
  {
    var init, last := rules[..|rules| - 1], rules[|rules| - 1];
    if i < |init| {
      assert Ids(init) == Ids(rules)[..|init|];
      PutMapAt(m, init, i);
      assert Ids(rules)[i] != Ids(rules)[|init|];
    }
  }

  lemma PutMapIs(m: map<Id, Body>, rules: seq<Rule>)
    requires Distinct(Ids(rules))
    ensures PutMap(m, rules).Keys == m.Keys + Elems(Ids(rules))
    ensures forall i :: 0 <= i < |rules| ==> PutMap(m, rules)[rules[i].id] == rules[i].body
    ensures forall id :: id in m && id !in Ids(rules) ==> PutMap(m, rules)[id] == m[id]
  {
    PutMapKeys(m, rules);
    forall i | 0 <= i < |rules|
      ensures rules[i].id in PutMap(m, rules) && PutMap(m, rules)[rules[i].id] == rules[i].body
    {
      PutMapAt(m, rules, i);
    }
  }

  /** An apply, all at once. */
  function Applied(reg: Registry, rules: seq<Rule>, surplus: seq<Id>, mirror: bool): Registry {
    reg.(local := PutMap(reg.local - Elems(surplus), rules),
         gp := if reg.gp.None? then None
               else if mirror then Some(PutMap(reg.gp.value - Elems(surplus), rules))
               else Some(reg.gp.value - Elems(surplus)),
         owner := Some(Ids(rules)))
  }

  lemma ExecApply(reg: Registry, rules: seq<Rule>, surplus: seq<Id>, mirror: bool)
    requires mirror ==> reg.gp.Some?
    ensures Exec(reg, ApplyWrites(rules, surplus, mirror)) == Applied(reg, rules, surplus, mirror)
  {
    ExecThree(reg, DeleteWrites(surplus), PutWrites(rules, mirror), SaveOwner(Ids(rules)));
    ExecDeletes(reg, surplus);
    ExecPuts(Exec(reg, DeleteWrites(surplus)), rules, mirror);
  }

  function Installed(reg: Registry, suffixes: seq<string>, servers: seq<string>, minted: seq<Id>): Registry
    requires EnoughIds(|suffixes|, Owned(reg), minted)
  {
    Applied(reg, Rules(suffixes, servers, Owned(reg), minted), Surplus(|suffixes|, Owned(reg)),
            MustMirror(reg, Owned(reg)))
  }

  /** The writes of `install` and `revert` add up to these two functions. */
  lemma WritesAddUp(reg: Registry, suffixes: seq<string>, servers: seq<string>, minted: seq<Id>)
    requires EnoughIds(|suffixes|, Owned(reg), minted)
    ensures Exec(reg, InstallWrites(reg, suffixes, servers, minted)) == Installed(reg, suffixes, servers, minted)
    ensures Exec(reg, ClearWrites(Owned(reg))) == Reverted(reg)
  {
    var previous := Owned(reg);
    ExecApply(reg, Rules(suffixes, servers, previous, minted), Surplus(|suffixes|, previous),
              MustMirror(reg, previous));
    ExecClear(reg);
  }

  function Reverted(reg: Registry): Registry {
    var ids := Elems(Owned(reg));
    var gp := if reg.gp.Some? then Some(reg.gp.value - ids) else None;
    reg.(local := reg.local - ids, owner := Some([]), gp := if gp == Some(map[]) && !reg.gpValues then None else gp)
  }

  lemma ExecClear(reg: Registry)
    ensures Exec(reg, ClearWrites(Owned(reg))) == Reverted(reg)
  {
    var ids := Owned(reg);
    ExecThree(reg, DeleteWrites(ids), [SaveOwner([])], DropEmptyGp);
    ExecDeletes(reg, ids);
    ExecOne(Exec(reg, DeleteWrites(ids)), SaveOwner([]));
  }

  // ------------------------------------------------------------------ histories

  /** The registry, and every id any process of ours ever minted. */
  datatype World = World(reg: Registry, ours: set<Id>)

  /** Restarts do not appear: a fresh process starts from the registry alone, and the
      mirror flag is recomputed by every install. Others write rules of their own. */
  datatype Step =
    | Install(suffixes: seq<string>, servers: seq<string>, minted: seq<Id>)
    | Revert
    | OthersLocal(rules: map<Id, Body>)
    | OthersGp(key: Option<map<Id, Body>>, values: bool)

  /** Rules that are not ours. */
  function Foreign(w: World, m: map<Id, Body>): map<Id, Body> {
    m - w.ours
  }

  function Ours(w: World, m: map<Id, Body>): map<Id, Body> {
    map id | id in m && id in w.ours :: m[id]
  }

  /** Fresh ids are new to us and to both tables; others touch only rules of their own,
      and drop the Group Policy key only when none of ours is in it. */
  ghost predicate Possible(w: World, step: Step) {
    match step
    case Install(suffixes, _, minted) =>
      && EnoughIds(|suffixes|, Owned(w.reg), minted) && Distinct(minted)
      && (forall id :: id in minted ==> id !in w.ours && id !in w.reg.local && id !in GpRules(w.reg))
    case Revert => true
    case OthersLocal(rules) => rules.Keys !! w.ours
    case OthersGp(key, _) => if key.Some? then key.value.Keys !! w.ours else Ours(w, GpRules(w.reg)) == map[]
  }

  function Next(w: World, step: Step): World
    requires step.Install? ==> EnoughIds(|step.suffixes|, Owned(w.reg), step.minted)
  {
    match step
    case Install(suffixes, servers, minted) =>
      World(Installed(w.reg, suffixes, servers, minted), w.ours + Elems(minted))
    case Revert => World(Reverted(w.reg), w.ours)
    case OthersLocal(rules) => w.(reg := w.reg.(local := Ours(w, w.reg.local) + rules))
    case OthersGp(key, values) =>
      w.(reg := w.reg.(gp := if key.Some? then Some(Ours(w, GpRules(w.reg)) + key.value) else None, gpValues := values))
  }

  /** Our rules in the local table are exactly those on the owner list; our rules in
      the Group Policy table are among them. */
  ghost predicate Inv(w: World) {
    && Distinct(Owned(w.reg))
    && Elems(Owned(w.reg)) <= w.ours
    && (forall id :: id in w.ours ==> (id in w.reg.local <==> id in Owned(w.reg)))
    && (forall id :: id in w.ours && id in GpRules(w.reg) ==> id in Owned(w.reg))
  }

  ghost predicate PossibleRun(w: World, steps: seq<Step>)
    decreases |steps|
  {
    steps == [] || (Possible(w, steps[0]) && PossibleRun(Next(w, steps[0]), steps[1..]))
  }

  ghost function Run(w: World, steps: seq<Step>): World
    requires PossibleRun(w, steps)
    decreases |steps|
  {
    if steps == [] then w else Run(Next(w, steps[0]), steps[1..])
  }

  /** The ids in use after an install, and how they relate to the old ones. */
  lemma InstallIds(w: World, suffixes: seq<string>, servers: seq<string>, minted: seq<Id>)
    requires Inv(w) && Possible(w, Install(suffixes, servers, minted))
    ensures var previous := Owned(w.reg);
            var ids := Ids(Rules(suffixes, servers, previous, minted));
            && Distinct(ids)
            && (forall id :: id in ids ==> id in previous || id in minted)
            && (forall id :: id in previous <==> (id in ids && id !in minted) || id in Surplus(|suffixes|, previous))
            && (forall id :: id in ids ==> id !in Surplus(|suffixes|, previous))
  {
    var previous := Owned(w.reg);
    var ids, surplus := Ids(Rules(suffixes, servers, previous, minted)), Surplus(|suffixes|, previous);
    var reused := if |ids| < |previous| then |ids| else |previous|;
    assert Distinct(previous + minted) by {
      forall i, j | 0 <= i < |previous| && 0 <= j < |minted| ensures previous[i] != minted[j] {
        assert previous[i] in Elems(previous) && minted[j] in minted;
      }
    }
    IdsExact(suffixes, servers, previous, minted);
    assert forall id :: id in previous ==> id !in minted by {
      assert forall id :: id in previous ==> id in Elems(previous);
    }
    IdsDivide(previous, minted, ids, surplus, reused);
  }

  /** Ids in use are a prefix of the previous ones followed by fresh ones; the rest of
      the previous ones is surplus. */
  lemma IdsDivide(previous: seq<Id>, minted: seq<Id>, ids: seq<Id>, surplus: seq<Id>, reused: nat)
    requires Distinct(previous) && forall id :: id in previous ==> id !in minted
    requires reused <= |ids| <= |previous| + |minted| && previous == ids[..reused] + surplus
             && (surplus != [] ==> reused == |ids|)
    requires forall i :: reused <= i < |ids| ==> |previous| <= i && ids[i] == minted[i - |previous|]
    ensures forall id :: id in ids ==> id in previous || id in minted
    ensures forall id :: id in previous <==> (id in ids && id !in minted) || id in surplus
    ensures forall id :: id in ids ==> id !in surplus
  {
    assert forall i :: 0 <= i < reused ==> ids[i] == previous[i];
    assert forall i :: 0 <= i < |surplus| ==> surplus[i] == previous[reused + i];
    forall id | id in previous ensures (id in ids && id !in minted) || id in surplus {
      var i :| 0 <= i < |previous| && previous[i] == id;
      assert if i < reused then ids[i] == id else surplus[i - reused] == id;
    }
  }

  lemma InstallKeepsInv(w: World, suffixes: seq<string>, servers: seq<string>, minted: seq<Id>)
    requires Inv(w) && Possible(w, Install(suffixes, servers, minted))
    ensures Inv(Next(w, Install(suffixes, servers, minted)))
  {
    var previous := Owned(w.reg);
    var rules, surplus := Rules(suffixes, servers, previous, minted), Surplus(|suffixes|, previous);
    InstallIds(w, suffixes, servers, minted);
    PutMapIs(w.reg.local - Elems(surplus), rules);
    if w.reg.gp.Some? {
      PutMapIs(w.reg.gp.value - Elems(surplus), rules);
    }
    assert Elems(previous) <= w.ours;
    assert forall id :: id in Ids(rules) ==> id in w.ours + Elems(minted);
  }

  lemma StepKeepsInv(w: World, step: Step)
    requires Inv(w) && Possible(w, step)
    ensures Inv(Next(w, step))
  {
    match step
    case Install(suffixes, servers, minted) => InstallKeepsInv(w, suffixes, servers, minted);
    case _ =>
  }

  lemma {:induction false} RunKeepsInv(w: World, steps: seq<Step>)
    requires Inv(w) && PossibleRun(w, steps)
    ensures Inv(Run(w, steps))
    decreases |steps|
  {
    if steps != [] {
      StepKeepsInv(w, steps[0]);
      RunKeepsInv(Next(w, steps[0]), steps[1..]);
    }
  }

  ghost predicate Clean(w: World) {
    Inv(w) && Owned(w.reg) == []
  }

  /** At the end of any history a revert by a fresh process removes every rule of
      ours from both tables, and leaves the rules of others as they were. */
  lemma RevertRemovesAll(w: World, steps: seq<Step>)
    requires Inv(w) && PossibleRun(w, steps)
    ensures var before := Run(w, steps);
            var after := Next(before, Revert);
            && Ours(after, after.reg.local) == map[] && Ours(after, GpRules(after.reg)) == map[]
            && Foreign(after, after.reg.local) == Foreign(before, before.reg.local)
            && Foreign(after, GpRules(after.reg)) == Foreign(before, GpRules(before.reg))
            && Clean(after)
  {
    RunKeepsInv(w, steps);
    var before := Run(w, steps);
    StepKeepsInv(before, Revert);
    assert Elems(Owned(before.reg)) <= before.ours;
  }

  /** A revert removes the Group Policy key exactly when nothing but rules of ours was
      under it, so that the local table is read again. */
  lemma RevertFreesKey(w: World)
    requires Inv(w)
    ensures Next(w, Revert).reg.gp.None?
       <==> w.reg.gp.None? || (!w.reg.gpValues && forall id :: id in w.reg.gp.value ==> id in w.ours)
  {
    var ids := Elems(Owned(w.reg));
    if w.reg.gp.Some? {
      var rest := w.reg.gp.value - ids;
      if forall id :: id in w.reg.gp.value ==> id in w.ours {
        assert rest == map[];
      } else {
        var id :| id in w.reg.gp.value && id !in w.ours;
        assert id in rest;
      }
    }
  }

  /** An install never changes a rule that is not ours, in either table. */
  lemma InstallSparesForeign(w: World, suffixes: seq<string>, servers: seq<string>, minted: seq<Id>)
    requires Inv(w) && Possible(w, Install(suffixes, servers, minted))
    ensures var t := Next(w, Install(suffixes, servers, minted));
            && Foreign(t, t.reg.local) == Foreign(w, w.reg.local)
            && Foreign(t, GpRules(t.reg)) == Foreign(w, GpRules(w.reg))
  {
    var previous := Owned(w.reg);
    var rules, surplus := Rules(suffixes, servers, previous, minted), Surplus(|suffixes|, previous);
    InstallIds(w, suffixes, servers, minted);
    assert Elems(previous) <= w.ours;
    TableSparesForeign(w.reg.local, surplus, rules, w.ours, minted);
    if w.reg.gp.Some? {
      TableSparesForeign(w.reg.gp.value, surplus, rules, w.ours, minted);
    }
  }

  lemma TableSparesForeign(m: map<Id, Body>, surplus: seq<Id>, rules: seq<Rule>, ours: set<Id>, minted: seq<Id>)
    requires Distinct(Ids(rules)) && (forall id :: id in surplus ==> id in ours)
    requires forall id :: id in Ids(rules) ==> id in ours || id in minted
    requires forall id :: id in minted ==> id !in m
    ensures PutMap(m - Elems(surplus), rules) - (ours + Elems(minted)) == m - ours
    ensures m - Elems(surplus) - (ours + Elems(minted)) == m - ours
  {
    PutMapIs(m - Elems(surplus), rules);
    var after := PutMap(m - Elems(surplus), rules) - (ours + Elems(minted));
    assert after.Keys == (m - ours).Keys;
  }

  // --------------------------------------------------------------- taking effect

  /** Windows reads the Group Policy table, when its key exists, and only then the
      local one. */
  function Effective(reg: Registry): map<Id, Body> {
    if reg.gp.Some? then reg.gp.value else reg.local
  }

  ghost predicate InForce(m: map<Id, Body>, rules: seq<Rule>) {
    forall i :: 0 <= i < |rules| ==> rules[i].id in m && m[rules[i].id] == rules[i].body
  }

  /** Some rule of the Group Policy table is on nobody's list but another program's. */
  ghost predicate ForeignPolicy(w: World) {
    w.reg.gp.Some? && exists id :: id in w.reg.gp.value && id !in w.ours
  }

  lemma MirrorsForeignPolicy(w: World)
    requires Inv(w)
    ensures MustMirror(w.reg, Owned(w.reg)) <==> ForeignPolicy(w)
  {
    assert forall id :: id in Owned(w.reg) <==> id in Elems(Owned(w.reg));
  }

  /** Suffix `i` stands, with its dot and the servers, in the rule its position gives. */
  ghost predicate Serves(m: map<Id, Body>, ids: seq<Id>, suffixes: seq<string>, servers: seq<string>) {
    forall i :: 0 <= i < |suffixes| ==>
      && i / 50 < |ids| && ids[i / 50] in m
      && var b := m[ids[i / 50]];
         b.servers == servers && i % 50 < |b.domains| && DottedForm(b.domains[i % 50], suffixes[i])
  }

  lemma InForceServes(m: map<Id, Body>, suffixes: seq<string>, servers: seq<string>, previous: seq<Id>, minted: seq<Id>)
    requires EnoughIds(|suffixes|, previous, minted)
    requires var rules := Rules(suffixes, servers, previous, minted); InForce(m, rules)
    ensures Serves(m, Ids(Rules(suffixes, servers, previous, minted)), suffixes, servers)
  {
    forall i | 0 <= i < |suffixes|
      ensures var ids := Ids(Rules(suffixes, servers, previous, minted));
              && i / 50 < |ids| && ids[i / 50] in m
              && var b := m[ids[i / 50]];
                 b.servers == servers && i % 50 < |b.domains| && DottedForm(b.domains[i % 50], suffixes[i])
    {
      SuffixAt(suffixes, servers, previous, minted, i);
    }
  }

  /** The local table always gets the new rules, each under its own id, and keeps no
      other rule of ours; so does the Group Policy table when we mirror. So every suffix
      is served there with its dot and the servers asked for. */
  lemma InstallWritesLocal(w: World, suffixes: seq<string>, servers: seq<string>, minted: seq<Id>)
    requires Inv(w) && Possible(w, Install(suffixes, servers, minted))
    ensures var rules := Rules(suffixes, servers, Owned(w.reg), minted);
            var t := Next(w, Install(suffixes, servers, minted));
            && InForce(t.reg.local, rules) && Ours(t, t.reg.local).Keys == Elems(Ids(rules))
            && Owned(t.reg) == Ids(rules) && Serves(t.reg.local, Owned(t.reg), suffixes, servers)
    ensures ForeignPolicy(w) ==>
              var rules := Rules(suffixes, servers, Owned(w.reg), minted);
              var t := Next(w, Install(suffixes, servers, minted));
              && InForce(GpRules(t.reg), rules) && Ours(t, GpRules(t.reg)).Keys == Elems(Ids(rules))
              && Serves(GpRules(t.reg), Owned(t.reg), suffixes, servers)
  {
    var rules, surplus := Rules(suffixes, servers, Owned(w.reg), minted), Surplus(|suffixes|, Owned(w.reg));
    InstallIds(w, suffixes, servers, minted);
    PutMapIs(w.reg.local - Elems(surplus), rules);
    InstallKeepsInv(w, suffixes, servers, minted);
    var t := Next(w, Install(suffixes, servers, minted));
    assert forall id :: id in Ids(rules) ==> id in Elems(Owned(t.reg));
    InForceServes(t.reg.local, suffixes, servers, Owned(w.reg), minted);
    MirrorsForeignPolicy(w);
    if MustMirror(w.reg, Owned(w.reg)) {
      PutMapIs(w.reg.gp.value - Elems(surplus), rules);
      PutsInForce(w.reg.gp.value - Elems(surplus), rules);
      InForceServes(GpRules(t.reg), suffixes, servers, Owned(w.reg), minted);
    }
  }

  /** The new rules take effect exactly when the Group Policy key is absent, or holds
      someone else's rule so that ours are mirrored, or already holds these very
      rules. A key left with only our own old rules keeps them in force, stale. */
  lemma InstallTakesEffect(w: World, suffixes: seq<string>, servers: seq<string>, minted: seq<Id>)
    requires Inv(w) && Possible(w, Install(suffixes, servers, minted))
    ensures var rules := Rules(suffixes, servers, Owned(w.reg), minted);
            InForce(Effective(Next(w, Install(suffixes, servers, minted)).reg), rules)
            <==> w.reg.gp.None? || ForeignPolicy(w) || InForce(w.reg.gp.value, rules)
  {
    MirrorsForeignPolicy(w);
    var rules, surplus := Rules(suffixes, servers, Owned(w.reg), minted), Surplus(|suffixes|, Owned(w.reg));
    InstallIds(w, suffixes, servers, minted);
    PutsInForce(w.reg.local - Elems(surplus), rules);
    if w.reg.gp.Some? {
      PutsInForce(w.reg.gp.value - Elems(surplus), rules);
      UntouchedInForce(w.reg.gp.value, surplus, rules);
    }
  }

  lemma PutsInForce(m: map<Id, Body>, rules: seq<Rule>)
    requires Distinct(Ids(rules))
    ensures InForce(PutMap(m, rules), rules)
  {
    PutMapIs(m, rules);
    assert forall i :: 0 <= i < |rules| ==> Ids(rules)[i] == rules[i].id && Ids(rules)[i] in Elems(Ids(rules));
  }

  lemma UntouchedInForce(m: map<Id, Body>, surplus: seq<Id>, rules: seq<Rule>)
    requires forall id :: id in Ids(rules) ==> id !in surplus
    ensures InForce(m - Elems(surplus), rules) <==> InForce(m, rules)
  {
    assert forall i :: 0 <= i < |rules| ==> Ids(rules)[i] == rules[i].id && rules[i].id !in surplus;
  }

  /** Such a key is reached by mirroring a policy that is then withdrawn: the next
      install writes the local table only, and the old servers stay in force. */
  lemma StaleIsReachable(x: Id, policy: Id, theirs: Body, suffix: string, old_: string, new_: string)
    requires x != policy && old_ != new_
    ensures var start := World(Registry(map[], None, false, None), {});
            var steps := [OthersGp(Some(map[policy := theirs]), false), Install([suffix], [old_], [x]),
                          OthersGp(Some(map[]), false)];
            && PossibleRun(start, steps)
            && var w := Run(start, steps);
               Possible(w, Install([suffix], [new_], []))
               && !InForce(Effective(Next(w, Install([suffix], [new_], [])).reg),
                           Rules([suffix], [new_], Owned(w.reg), []))
  {
    var start := World(Registry(map[], None, false, None), {});
    var a, b, c := OthersGp(Some(map[policy := theirs]), false), Install([suffix], [old_], [x]),
        OthersGp(Some(map[]), false);
    var w1 := Next(start, a);
    assert Ours(start, map[]) + map[policy := theirs] == map[policy := theirs];
    assert w1.reg == Registry(map[], Some(map[policy := theirs]), false, None);
    assert w1.reg.gp == Some(map[policy := theirs]) && w1.reg.local == map[];
    assert policy in w1.reg.gp.value && MustMirror(w1.reg, []);
    OneRule(suffix, old_, [], [x]);
    var w2 := Next(w1, b);
    var r := Rule(x, Body([Dotted(suffix)], [old_]));
    assert PutMap(map[policy := theirs] - Elems([]), [r]) == map[policy := theirs, x := r.body] by {
      assert [r][..0] == [];
    }
    assert Ids([r]) == [x];
    assert w2.reg.gp == Some(map[policy := theirs, x := r.body]) && Owned(w2.reg) == [x] && w2.ours == {x};
    var w3 := Next(w2, c);
    assert Ours(w2, map[policy := theirs, x := r.body]) + map[] == map[x := r.body];
    assert w3.reg == w2.reg.(gp := Some(map[x := r.body]), gpValues := false);
    assert w3.reg.gp == Some(map[x := r.body]) && Owned(w3.reg) == [x];
    RunThree(start, a, b, c);
    OneRule(suffix, new_, [x], []);
    assert !MustMirror(w3.reg, [x]);
    var rules := Rules([suffix], [new_], [x], []);
    assert rules[0].body != r.body;
    RunKeepsInv(start, [a, b, c]);
    InstallTakesEffect(w3, [suffix], [new_], []);
  }

  lemma OneRule(suffix: string, server: string, previous: seq<Id>, minted: seq<Id>)
    requires |previous + minted| == 1
    ensures EnoughIds(1, previous, minted) && Surplus(1, previous) == []
    ensures Rules([suffix], [server], previous, minted)
            == [Rule((previous + minted)[0], Body([Dotted(suffix)], [server]))]
  {
    assert [suffix][0..1] == [suffix];
    assert AllDotted([suffix]) == [Dotted(suffix)];
  }

  lemma RunThree(w: World, a: Step, b: Step, c: Step)
    requires Possible(w, a) && Possible(Next(w, a), b) && Possible(Next(Next(w, a), b), c)
    ensures PossibleRun(w, [a, b, c]) && Run(w, [a, b, c]) == Next(Next(Next(w, a), b), c)
  {
    assert [a, b, c][1..] == [b, c] && [b, c][1..] == [c] && [c][1..] == [];
    var w2 := Next(Next(w, a), b);
    assert PossibleRun(Next(w2, c), []) && PossibleRun(w2, [c]) && Run(w2, [c]) == Next(w2, c);
    assert PossibleRun(Next(w, a), [b, c]) && Run(Next(w, a), [b, c]) == Next(w2, c);
  }

  // ------------------------------------------------------ crash in mid-install

  /** Every id some process of ours put into the local table by these writes. */
  ghost predicate PutBy(writes: seq<Write>, k: nat, id: Id)
    requires k <= |writes|
  {
    exists j: nat :: j < k && writes[j].PutLocal? && writes[j].rule.id == id
  }

  lemma {:induction false} LocalAfter(reg: Registry, writes: seq<Write>, k: nat, id: Id)
    requires k <= |writes| && forall j :: 0 <= j < k ==> writes[j] != DeleteLocal(id)
    ensures id in Exec(reg, writes[..k]).local <==> id in reg.local || PutBy(writes, k, id)
  {
    if k > 0 {
      LocalAfter(reg, writes, k - 1, id);
      assert writes[..k][..k - 1] == writes[..k - 1];
      var j: nat := k - 1;
      assert PutBy(writes, k, id) <==> PutBy(writes, j, id) || (writes[j].PutLocal? && writes[j].rule.id == id);
    }
  }

  /** The same for the Group Policy table. */
  ghost predicate MirroredBy(writes: seq<Write>, k: nat, id: Id)
    requires k <= |writes|
  {
    exists j: nat :: j < k && writes[j].PutGp? && writes[j].rule.id == id
  }

  lemma {:induction false} GpAfter(reg: Registry, writes: seq<Write>, k: nat, id: Id)
    requires k <= |writes| && forall j :: 0 <= j < k ==> writes[j] != DeleteGp(id) && writes[j] != DropEmptyGp
    ensures id in GpRules(Exec(reg, writes[..k])) <==> id in GpRules(reg) || MirroredBy(writes, k, id)
  {
    if k > 0 {
      GpAfter(reg, writes, k - 1, id);
      assert writes[..k][..k - 1] == writes[..k - 1];
      var j: nat := k - 1;
      assert MirroredBy(writes, k, id) <==> MirroredBy(writes, j, id) || (writes[j].PutGp? && writes[j].rule.id == id);
    }
  }

  lemma {:induction false} OwnerAfter(reg: Registry, writes: seq<Write>, k: nat)
    requires k <= |writes| && forall j :: 0 <= j < k ==> !writes[j].SaveOwner?
    ensures Exec(reg, writes[..k]).owner == reg.owner
  {
    if k > 0 {
      OwnerAfter(reg, writes, k - 1);
      assert writes[..k][..k - 1] == writes[..k - 1];
    }
  }

  lemma {:induction false} DeleteWritesShape(ids: seq<Id>)
    ensures forall j :: 0 <= j < |DeleteWrites(ids)| ==>
              var w := DeleteWrites(ids)[j]; (w.DeleteLocal? || w.DeleteGp?) && w.id in ids
  {
    if ids != [] {
      DeleteWritesShape(ids[..|ids| - 1]);
    }
  }

  lemma {:induction false} PutWritesShape(rules: seq<Rule>, mirror: bool)
    ensures forall j :: 0 <= j < |PutWrites(rules, mirror)| ==>
              var w := PutWrites(rules, mirror)[j]; w.PutLocal? || w.PutGp?
  {
    if rules != [] {
      PutWritesShape(rules[..|rules| - 1], mirror);
    }
  }

  /** A process that dies after `k` writes of an install, before the owner list is
      saved, is cleaned up by a fresh revert except for the fresh ids it had already
      put: those stay for good, in the local table and, when it was mirroring, in the
      Group Policy table, where they are in force. Rules of ours from before are gone. */
  lemma CrashLeaksFreshIds(w: World, suffixes: seq<string>, servers: seq<string>, minted: seq<Id>, k: nat, id: Id)
    requires Inv(w) && Possible(w, Install(suffixes, servers, minted))
    requires k < |InstallWrites(w.reg, suffixes, servers, minted)|
    requires id in w.ours + Elems(minted)
    ensures var writes := InstallWrites(w.reg, suffixes, servers, minted);
            var after := Reverted(Exec(w.reg, writes[..k]));
            && (id in after.local <==> id in minted && PutBy(writes, k, id))
            && (id in GpRules(after) <==> id in minted && MirroredBy(writes, k, id))
  {
    var previous := Owned(w.reg);
    var rules, surplus := Rules(suffixes, servers, previous, minted), Surplus(|suffixes|, previous);
    var mirror, writes := MustMirror(w.reg, previous), InstallWrites(w.reg, suffixes, servers, minted);
    CrashWrites(rules, surplus, mirror);
    OwnerAfter(w.reg, writes, k);
    InstallIds(w, suffixes, servers, minted);
    if id !in previous {
      assert id !in surplus;
      LocalAfter(w.reg, writes, k, id);
      GpAfter(w.reg, writes, k, id);
      if PutBy(writes, k, id) || MirroredBy(writes, k, id) {
        PutsAreRules(rules, surplus, mirror, k, id);
      }
    }
    assert id in previous ==> id in Elems(previous) && id !in minted;
  }

  /** A first install that dies after its first write leaves that rule behind. */
  lemma FirstInstallLeaks(suffix: string, server: string, x: Id)
    ensures var w := World(Registry(map[], None, false, None), {});
            var writes := InstallWrites(w.reg, [suffix], [server], [x]);
            && Inv(w) && Possible(w, Install([suffix], [server], [x])) && |writes| > 1
            && x in Reverted(Exec(w.reg, writes[..1])).local
  {
    var w := World(Registry(map[], None, false, None), {});
    OneRule(suffix, server, [], [x]);
    var r := Rule(x, Body([Dotted(suffix)], [server]));
    var writes := InstallWrites(w.reg, [suffix], [server], [x]);
    assert PutWrites([r], false) == [PutLocal(r)] by {
      assert [r][..0] == [];
    }
    assert writes == [PutLocal(r), SaveOwner(Ids([r]))];
    var first: nat := 0;
    assert writes[first] == PutLocal(r);
    assert PutBy(writes, 1, x);
    CrashLeaksFreshIds(w, [suffix], [server], [x], 1, x);
  }

  /** A process that dies at any write of a revert loses nothing: a fresh revert ends
      where the first would have. */
  lemma RevertSurvivesCrash(reg: Registry, k: nat)
    requires k <= |ClearWrites(Owned(reg))|
    ensures Reverted(Exec(reg, ClearWrites(Owned(reg))[..k])) == Reverted(reg)
  {
    var ids, writes := Owned(reg), ClearWrites(Owned(reg));
    var deletes := DeleteWrites(ids);
    if k <= |deletes| {
      assert writes[..k] == deletes[..k];
      DeletesPart(reg, ids, k);
    } else {
      ExecDeletes(reg, ids);
      ExecAppend(reg, deletes, [SaveOwner([])]);
      ExecOne(Exec(reg, deletes), SaveOwner([]));
      if k == |deletes| + 1 {
        assert writes[..k] == deletes + [SaveOwner([])];
        NothingOwned(Exec(reg, writes[..k]));
      } else {
        assert writes[..k] == writes;
        ExecClear(reg);
        NothingOwned(Reverted(reg));
      }
    }
  }

  lemma NothingOwned(reg: Registry)
    requires reg.owner == Some([])
    ensures Reverted(reg) == Do(reg, DropEmptyGp)
  {
    assert Elems([]) == {} && reg.local - {} == reg.local;
    assert reg.gp.Some? ==> reg.gp.value - {} == reg.gp.value;
  }

  /** Half-way through the deletes, only ids on the owner list are gone. */
  lemma {:induction false} DeletesPart(reg: Registry, ids: seq<Id>, k: nat)
    requires k <= |DeleteWrites(ids)|
    ensures var part := Exec(reg, DeleteWrites(ids)[..k]);
            && part.owner == reg.owner && part.gpValues == reg.gpValues && (part.gp.Some? <==> reg.gp.Some?)
            && part.local - Elems(ids) == reg.local - Elems(ids)
            && GpRules(part) - Elems(ids) == GpRules(reg) - Elems(ids)
  {
    if k > 0 {
      DeletesPart(reg, ids, k - 1);
      DeleteWritesShape(ids);
      assert DeleteWrites(ids)[..k][..k - 1] == DeleteWrites(ids)[..k - 1];
      var w := DeleteWrites(ids)[k - 1];
      assert w.id in Elems(ids);
    }
  }

  /** Before the last write the owner list is untouched, and only surplus ids are deleted. */
  lemma CrashWrites(rules: seq<Rule>, surplus: seq<Id>, mirror: bool)
    ensures var writes := ApplyWrites(rules, surplus, mirror);
            forall j :: 0 <= j < |writes| - 1 ==>
              && !writes[j].SaveOwner? && !writes[j].DropEmptyGp?
              && (writes[j].DeleteLocal? || writes[j].DeleteGp? ==> writes[j].id in surplus)
  {
    DeleteWritesShape(surplus);
    PutWritesShape(rules, mirror);
  }

  lemma PutsAreRules(rules: seq<Rule>, surplus: seq<Id>, mirror: bool, k: nat, id: Id)
    requires var writes := ApplyWrites(rules, surplus, mirror);
             k <= |writes| && (PutBy(writes, k, id) || MirroredBy(writes, k, id))
    ensures id in Ids(rules)
  {
    var writes := ApplyWrites(rules, surplus, mirror);
    var j: nat :| j < k && (writes[j].PutLocal? || writes[j].PutGp?) && writes[j].rule.id == id;
    DeleteWritesShape(surplus);
    PutsFromRules(rules, mirror, writes[j]);
  }

  lemma {:induction false} PutsFromRules(rules: seq<Rule>, mirror: bool, w: Write)
    requires w in PutWrites(rules, mirror) && (w.PutLocal? || w.PutGp?)
    ensures w.rule.id in Ids(rules)
  {
    var init := rules[..|rules| - 1];
    assert Ids(rules) == Ids(init) + [rules[|rules| - 1].id];
    if w in PutWrites(init, mirror) {
      PutsFromRules(init, mirror, w);
    }
  }
}
