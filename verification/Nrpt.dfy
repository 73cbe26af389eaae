/** Split-horizon DNS on Windows: rules in two registry tables, owned through a list
    of rule ids that the next process can read. */
module Nrpt {
  import opened Nets

  /** A rule id: a fresh GUID, of which only identity matters. */
  datatype Id = Id(n: nat)

  datatype Body = Body(domains: seq<string>, servers: seq<string>)

  datatype Rule = Rule(id: Id, body: Body)

  const MAX_DOMAINS: nat := 50

  // ------------------------------------------------------------------- packing

  /** NRPT reads an entry as a suffix only with a leading dot. */
  function Dotted(s: string): string {
    if s != [] && s[0] == '.' then s else "." + s
  }

  function AllDotted(suffixes: seq<string>): (r: seq<string>)
    ensures |r| == |suffixes| && forall i :: 0 <= i < |r| ==> r[i] == Dotted(suffixes[i])
  {
    seq(|suffixes|, i requires 0 <= i < |suffixes| => Dotted(suffixes[i]))
  }

  function ChunkCount(n: nat): nat {
    (n + MAX_DOMAINS - 1) / MAX_DOMAINS
  }

  /** The id of rule `i`: a previous one while they last, then fresh ones. */
  function IdAt(previous: seq<Id>, minted: seq<Id>, i: nat): Id
    requires i < |previous| + |minted|
  {
    if i < |previous| then previous[i] else minted[i - |previous|]
  }

  /** Enough fresh ids for the chunks that no previous id covers. */
  predicate EnoughIds(n: nat, previous: seq<Id>, minted: seq<Id>) {
    ChunkCount(n) <= |previous| + |minted|
  }

  function RuleAt(suffixes: seq<string>, servers: seq<string>, previous: seq<Id>, minted: seq<Id>, i: nat): Rule
    requires i < ChunkCount(|suffixes|) && EnoughIds(|suffixes|, previous, minted)
  {
    var from := i * MAX_DOMAINS;
    var to := if from + MAX_DOMAINS < |suffixes| then from + MAX_DOMAINS else |suffixes|;
    Rule(IdAt(previous, minted, i), Body(AllDotted(suffixes[from..to]), servers))
  }

  function Rules(suffixes: seq<string>, servers: seq<string>, previous: seq<Id>, minted: seq<Id>): seq<Rule>
    requires EnoughIds(|suffixes|, previous, minted)
  {
    seq(ChunkCount(|suffixes|), i requires 0 <= i < ChunkCount(|suffixes|) =>
        RuleAt(suffixes, servers, previous, minted, i))
  }

  function Surplus(n: nat, previous: seq<Id>): seq<Id> {
    if ChunkCount(n) < |previous| then previous[ChunkCount(n)..] else []
  }

  /** `build_rules`: walks the suffixes in chunks. */
  method BuildRules(suffixes: seq<string>, servers: seq<string>, previous: seq<Id>, minted: seq<Id>)
    returns (rules: seq<Rule>, surplus: seq<Id>)
    requires EnoughIds(|suffixes|, previous, minted)
    ensures rules == Rules(suffixes, servers, previous, minted)
    ensures surplus == Surplus(|suffixes|, previous)
  {
    rules := [];
    var at, i := 0, 0;
    while at < |suffixes|
      invariant i <= ChunkCount(|suffixes|)
      invariant at == if i * MAX_DOMAINS < |suffixes| then i * MAX_DOMAINS else |suffixes|
      invariant at == |suffixes| ==> i == ChunkCount(|suffixes|)
      invariant rules == Rules(suffixes, servers, previous, minted)[..i]
      decreases |suffixes| - at
    {
      var next := if at + MAX_DOMAINS < |suffixes| then at + MAX_DOMAINS else |suffixes|;
      rules := rules + [Rule(IdAt(previous, minted, i), Body(AllDotted(suffixes[at..next]), servers))];
      at, i := next, i + 1;
    }
    surplus := if i < |previous| then previous[i..] else [];
  }

  function Domains(rules: seq<Rule>): seq<string> {
    if rules == [] then [] else Domains(rules[..|rules| - 1]) + rules[|rules| - 1].body.domains
  }

  function Ids(rules: seq<Rule>): (ids: seq<Id>)
    ensures |ids| == |rules| && forall i :: 0 <= i < |ids| ==> ids[i] == rules[i].id
  {
    seq(|rules|, i requires 0 <= i < |rules| => rules[i].id)
  }

  ghost predicate Distinct(ids: seq<Id>) {
    forall i, j :: 0 <= i < j < |ids| ==> ids[i] != ids[j]
  }

  lemma {:induction false} DomainsOfPrefix(suffixes: seq<string>, servers: seq<string>, previous: seq<Id>,
                                           minted: seq<Id>, i: nat)
    requires EnoughIds(|suffixes|, previous, minted) && i <= ChunkCount(|suffixes|)
    ensures var to := if i * MAX_DOMAINS < |suffixes| then i * MAX_DOMAINS else |suffixes|;
            Domains(Rules(suffixes, servers, previous, minted)[..i]) == AllDotted(suffixes)[..to]
  {
    if i > 0 {
      var rules := Rules(suffixes, servers, previous, minted);
      DomainsOfPrefix(suffixes, servers, previous, minted, i - 1);
      assert rules[..i][..i - 1] == rules[..i - 1];
    }
  }

  /** `d` is suffix `s` as NRPT wants it: with one leading dot added unless it has one. */
  predicate DottedForm(d: string, s: string) {
    && d != [] && d[0] == '.'
    && (d == s || (d[1..] == s && (s == [] || s[0] != '.')))
  }

  /** Packing loses nothing: the rules' domains, end to end, are the suffixes in order,
      each with its dot; there are as few rules as the limit of fifty allows, none empty or
      over it, each with all the servers. */
  lemma PackingExact(suffixes: seq<string>, servers: seq<string>, previous: seq<Id>, minted: seq<Id>)
    requires EnoughIds(|suffixes|, previous, minted)
    ensures var rules := Rules(suffixes, servers, previous, minted);
            var domains := Domains(rules);
            && |domains| == |suffixes|
            && (forall i :: 0 <= i < |suffixes| ==> DottedForm(domains[i], suffixes[i]))
            && |rules| == (|suffixes| + 49) / 50
            && (forall i :: 0 <= i < |rules| ==>
                  1 <= |rules[i].body.domains| <= 50 && rules[i].body.servers == servers)
  {
    var rules := Rules(suffixes, servers, previous, minted);
    DomainsOfPrefix(suffixes, servers, previous, minted, |rules|);
    assert rules[..|rules|] == rules;
    assert AllDotted(suffixes)[..|suffixes|] == AllDotted(suffixes);
  }

  /** Where a suffix goes: the fifty of a rule are consecutive. */
  lemma SuffixAt(suffixes: seq<string>, servers: seq<string>, previous: seq<Id>, minted: seq<Id>, i: nat)
    requires EnoughIds(|suffixes|, previous, minted) && i < |suffixes|
    ensures var rules := Rules(suffixes, servers, previous, minted);
            && i / 50 < |rules| && i % 50 < |rules[i / 50].body.domains|
            && DottedForm(rules[i / 50].body.domains[i % 50], suffixes[i])
  {
    var r := RuleAt(suffixes, servers, previous, minted, i / 50);
    assert r.body.domains[i % 50] == Dotted(suffixes[i]);
  }

  /** Reused ids and surplus ids give the previous list back, and the ids in use stay
      distinct as long as fresh ids are new. */
  lemma IdsExact(suffixes: seq<string>, servers: seq<string>, previous: seq<Id>, minted: seq<Id>)
    requires EnoughIds(|suffixes|, previous, minted)
    ensures var ids := Ids(Rules(suffixes, servers, previous, minted));
            var reused := if |ids| < |previous| then |ids| else |previous|;
            && ids[..reused] + Surplus(|suffixes|, previous) == previous
            && (forall i :: reused <= i < |ids| ==> ids[i] == minted[i - |previous|])
            && (Distinct(previous + minted) ==> Distinct(ids))
  {
    var ids := Ids(Rules(suffixes, servers, previous, minted));
    assert forall i :: 0 <= i < |ids| ==> ids[i] == (previous + minted)[i];
  }

  // ------------------------------------------------------------------ registry

  /** The local table, the Group Policy table if its key exists, whether that key
      holds values besides rules, and the owner list. */
  datatype Registry = Registry(local: map<Id, Body>, gp: Option<map<Id, Body>>, gpValues: bool, owner: Option<seq<Id>>)

  datatype Write =
    | DeleteLocal(id: Id) | DeleteGp(id: Id)
    | PutLocal(rule: Rule) | PutGp(rule: Rule)
    | SaveOwner(ids: seq<Id>)
    | DropEmptyGp

  function GpRules(reg: Registry): map<Id, Body> {
    if reg.gp.Some? then reg.gp.value else map[]
  }

  function Do(reg: Registry, w: Write): Registry {
    match w
    case DeleteLocal(id) => reg.(local := reg.local - {id})
    case DeleteGp(id) => reg.(gp := if reg.gp.Some? then Some(reg.gp.value - {id}) else None)
    case PutLocal(r) => reg.(local := reg.local[r.id := r.body])
    case PutGp(r) => reg.(gp := Some(GpRules(reg)[r.id := r.body]))
    case SaveOwner(ids) => reg.(owner := Some(ids))
    case DropEmptyGp => if reg.gp == Some(map[]) && !reg.gpValues then reg.(gp := None) else reg
  }

  function Exec(reg: Registry, writes: seq<Write>): Registry {
    if writes == [] then reg else Do(Exec(reg, writes[..|writes| - 1]), writes[|writes| - 1])
  }

  function Owned(reg: Registry): seq<Id> {
    if reg.owner.Some? then reg.owner.value else []
  }

  function DeleteWrites(ids: seq<Id>): seq<Write> {
    if ids == [] then []
    else DeleteWrites(ids[..|ids| - 1]) + [DeleteLocal(ids[|ids| - 1]), DeleteGp(ids[|ids| - 1])]
  }

  function PutWrites(rules: seq<Rule>, mirror: bool): seq<Write> {
    if rules == [] then []
    else
      var r := rules[|rules| - 1];
      PutWrites(rules[..|rules| - 1], mirror) + if mirror then [PutLocal(r), PutGp(r)] else [PutLocal(r)]
  }

  /** What an install writes, in order: the owner list comes last. */
  function ApplyWrites(rules: seq<Rule>, surplus: seq<Id>, mirror: bool): seq<Write> {
    DeleteWrites(surplus) + PutWrites(rules, mirror) + [SaveOwner(Ids(rules))]
  }

  function ClearWrites(ids: seq<Id>): seq<Write> {
    DeleteWrites(ids) + [SaveOwner([])] + [DropEmptyGp]
  }

  /** Some rule of the Group Policy table is not ours. */
  predicate MustMirror(reg: Registry, owned: seq<Id>) {
    reg.gp.Some? && exists id :: id in reg.gp.value && id !in owned
  }

  /** What an install writes, read off the registry. */
  function InstallWrites(reg: Registry, suffixes: seq<string>, servers: seq<string>, minted: seq<Id>): seq<Write>
    requires EnoughIds(|suffixes|, Owned(reg), minted)
  {
    ApplyWrites(Rules(suffixes, servers, Owned(reg), minted), Surplus(|suffixes|, Owned(reg)),
                MustMirror(reg, Owned(reg)))
  }

  lemma ExecAppend(reg: Registry, a: seq<Write>, b: seq<Write>)
    ensures Exec(reg, a + b) == Exec(Exec(reg, a), b)
  {
    if b == [] {
      assert a + b == a;
    } else {
      ExecAppend(reg, a, b[..|b| - 1]);
      assert (a + b)[..|a + b| - 1] == a + b[..|b| - 1];
    }
  }

  lemma ExecOne(reg: Registry, w: Write)
    ensures Exec(reg, [w]) == Do(reg, w)
  {
    assert [w][..0] == [];
  }

  class Hive {
    var reg: Registry
    /** Every write since the hive was opened. */
    var journal: seq<Write>

    constructor (reg: Registry)
      ensures this.reg == reg && journal == []
    {
      this.reg, journal := reg, [];
    }

    method Perform(w: Write)
      modifies this
      ensures reg == Do(old(reg), w) && journal == old(journal) + [w]
    {
      reg, journal := Do(reg, w), journal + [w];
    }
  }

  /** `DnsManager`: the one field that outlives a call is the mirror flag. */
  class DnsManager {
    const hive: Hive
    var writeAsGp: bool

    constructor (hive: Hive)
      ensures this.hive == hive && !writeAsGp
    {
      this.hive, writeAsGp := hive, false;
    }

    /** Both delete loops: local table first, then Group Policy, for each id. */
    method DeleteAll(ids: seq<Id>)
      modifies hive
      ensures hive.reg == Exec(old(hive.reg), DeleteWrites(ids))
      ensures hive.journal == old(hive.journal) + DeleteWrites(ids)
    {
      ghost var reg, past := hive.reg, hive.journal;
      for i := 0 to |ids|
        invariant hive.reg == Exec(reg, DeleteWrites(ids[..i]))
        invariant hive.journal == past + DeleteWrites(ids[..i])
      {
        hive.Perform(DeleteLocal(ids[i]));
        hive.Perform(DeleteGp(ids[i]));
        assert ids[..i + 1][..i] == ids[..i];
        ExecTwo(reg, DeleteWrites(ids[..i]), DeleteLocal(ids[i]), DeleteGp(ids[i]));
        assert past + DeleteWrites(ids[..i]) + [DeleteLocal(ids[i])] + [DeleteGp(ids[i])]
            == past + (DeleteWrites(ids[..i]) + [DeleteLocal(ids[i]), DeleteGp(ids[i])]);
      }
      assert ids[..|ids|] == ids;
    }

    method PutAll(rules: seq<Rule>)
      modifies hive
      ensures hive.reg == Exec(old(hive.reg), PutWrites(rules, writeAsGp))
      ensures hive.journal == old(hive.journal) + PutWrites(rules, writeAsGp)
    {
      ghost var reg, past := hive.reg, hive.journal;
      for i := 0 to |rules|
        invariant hive.reg == Exec(reg, PutWrites(rules[..i], writeAsGp))
        invariant hive.journal == past + PutWrites(rules[..i], writeAsGp)
      {
        ghost var before := PutWrites(rules[..i], writeAsGp);
        assert rules[..i + 1][..i] == rules[..i];
        hive.Perform(PutLocal(rules[i]));
        if writeAsGp {
          hive.Perform(PutGp(rules[i]));
          ExecTwo(reg, before, PutLocal(rules[i]), PutGp(rules[i]));
          assert past + before + [PutLocal(rules[i])] + [PutGp(rules[i])]
              == past + (before + [PutLocal(rules[i]), PutGp(rules[i])]);
        } else {
          ExecAppend(reg, before, [PutLocal(rules[i])]);
          ExecOne(Exec(reg, before), PutLocal(rules[i]));
          assert past + before + [PutLocal(rules[i])] == past + (before + [PutLocal(rules[i])]);
        }
      }
      assert rules[..|rules|] == rules;
    }

    /** `install`. */
    method Install(suffixes: seq<string>, servers: seq<string>, minted: seq<Id>)
      requires EnoughIds(|suffixes|, Owned(hive.reg), minted)
      modifies this, hive
      ensures var reg := old(hive.reg);
              writeAsGp
              <==> reg.gp.Some? && exists id :: id in reg.gp.value && (reg.owner.None? || id !in reg.owner.value)
      ensures var writes := InstallWrites(old(hive.reg), suffixes, servers, minted);
              hive.reg == Exec(old(hive.reg), writes) && hive.journal == old(hive.journal) + writes
    {
      var previous := Owned(hive.reg);
      writeAsGp := MustMirror(hive.reg, previous);
      var rules, surplus := BuildRules(suffixes, servers, previous, minted);
      ghost var reg, past := hive.reg, hive.journal;
      DeleteAll(surplus);
      PutAll(rules);
      hive.Perform(SaveOwner(Ids(rules)));
      ExecThree(reg, DeleteWrites(surplus), PutWrites(rules, writeAsGp), SaveOwner(Ids(rules)));
      Regroup(past, DeleteWrites(surplus), PutWrites(rules, writeAsGp), [SaveOwner(Ids(rules))]);
    }

    /** `revert`: ids come from the registry, so a fresh process can do it. */
    method Revert()
      modifies hive
      ensures hive.reg == Exec(old(hive.reg), ClearWrites(Owned(old(hive.reg))))
    {
      ghost var reg := hive.reg;
      var ids := Owned(hive.reg);
      DeleteAll(ids);
      hive.Perform(SaveOwner([]));
      hive.Perform(DropEmptyGp);
      ExecThree(reg, DeleteWrites(ids), [SaveOwner([])], DropEmptyGp);
      ExecOne(Exec(reg, DeleteWrites(ids)), SaveOwner([]));
    }
  }

  lemma Regroup(past: seq<Write>, a: seq<Write>, b: seq<Write>, c: seq<Write>)
    ensures past + a + b + c == past + (a + b + c)
  {
  }

  lemma ExecTwo(reg: Registry, before: seq<Write>, a: Write, b: Write)
    ensures Exec(reg, before + [a, b]) == Do(Do(Exec(reg, before), a), b)
  {
    ExecAppend(reg, before, [a, b]);
    assert [a, b][..1] == [a];
    ExecOne(Exec(reg, before), a);
  }

  lemma ExecThree(reg: Registry, a: seq<Write>, b: seq<Write>, w: Write)
    ensures Exec(reg, a + b + [w]) == Do(Exec(Exec(reg, a), b), w)
  {
    ExecAppend(reg, a + b, [w]);
    ExecAppend(reg, a, b);
    ExecOne(Exec(reg, a + b), w);
  }
}
