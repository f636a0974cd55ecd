/** The host-call sites of a module: one for each qualified name that is called,
    in the order in which the pre-pass meets them. */
module WasmSites {
  import opened Ir

  const MAX_HOST_CALLS := 64

  // ---- registration ----

  /** A name without a namespace cannot be imported. */
  predicate Dotted(name: string) {
    '.' in name
  }

  function AddSite(sites: seq<string>, name: string): seq<string> {
    if name in sites || |sites| >= MAX_HOST_CALLS || !Dotted(name) then sites else sites + [name]
  }

  function AddSites(sites: seq<string>, names: seq<string>): seq<string> {
    if names == [] then sites else AddSite(AddSites(sites, names[..|names| - 1]), names[|names| - 1])
  }

  /** The names called by the host calls of a module, in text order. */
  function InstNames(insts: seq<Inst>): seq<string> {
    if insts == [] then []
    else
      var inst := insts[|insts| - 1];
      InstNames(insts[..|insts| - 1]) + (if inst.HostCall? then [inst.name] else [])
  }

  function BlockNames(blocks: seq<Block>): seq<string> {
    if blocks == [] then [] else BlockNames(blocks[..|blocks| - 1]) + InstNames(blocks[|blocks| - 1].insts)
  }

  function HostNames(functions: seq<Function>): seq<string> {
    if functions == [] then []
    else HostNames(functions[..|functions| - 1]) + BlockNames(functions[|functions| - 1].blocks)
  }

  // ---- what the table holds ----

  predicate Once(sites: seq<string>) {
    forall i, j :: 0 <= i < j < |sites| ==> sites[i] != sites[j]
  }

  predicate GoodSites(sites: seq<string>) {
    Once(sites) && |sites| <= MAX_HOST_CALLS && forall name <- sites :: Dotted(name)
  }

  /** A name is added exactly when it is new, has a namespace and finds room;
      what is there stays, and no name is there twice. */
  lemma AddSiteExact(sites: seq<string>, name: string)
    requires GoodSites(sites)
    ensures GoodSites(AddSite(sites, name))
    ensures AddSite(sites, name) ==
            sites + if name !in sites && Dotted(name) && |sites| < 64 then [name] else []
  {
    assert sites + [] == sites;
  }

  lemma {:induction false} AddSitesGood(sites: seq<string>, names: seq<string>)
    requires GoodSites(sites)
    ensures GoodSites(AddSites(sites, names)) && sites <= AddSites(sites, names)
    ensures forall name <- AddSites(sites, names) :: name in sites || (name in names && Dotted(name))
  {
    if names != [] {
      AddSitesGood(sites, names[..|names| - 1]);
      AddSiteExact(AddSites(sites, names[..|names| - 1]), names[|names| - 1]);
    }
  }

  lemma {:induction false} AddSitesAppend(sites: seq<string>, a: seq<string>, b: seq<string>)
    ensures AddSites(sites, a + b) == AddSites(AddSites(sites, a), b)
  {
    if b == [] {
      assert a + b == a;
    } else {
      assert (a + b)[..|a + b| - 1] == a + b[..|b| - 1];
      AddSitesAppend(sites, a, b[..|b| - 1]);
    }
  }

  function DottedNames(names: seq<string>): set<string> {
    set name | name in names && Dotted(name)
  }

  function Names(sites: seq<string>): set<string> {
    set name | name in sites
  }

  lemma {:induction false} NamesCount(sites: seq<string>)
    requires Once(sites)
    ensures |Names(sites)| == |sites|
  {
    if sites != [] {
      var n := |sites| - 1;
      NamesCount(sites[..n]);
      assert sites == sites[..n] + [sites[n]];
      assert sites[n] !in Names(sites[..n]);
      assert Names(sites) == Names(sites[..n]) + {sites[n]};
    }
  }

  /** A dotted name is missing only when the table is full. */
  lemma {:induction false} FullOrFound(names: seq<string>, name: string)
    requires name in names && Dotted(name)
    ensures name in AddSites([], names) || |AddSites([], names)| == MAX_HOST_CALLS
  {
    var n := |names| - 1;
    AddSitesGood([], names[..n]);
    AddSiteExact(AddSites([], names[..n]), names[n]);
    if name != names[n] {
      assert name in names[..n];
      FullOrFound(names[..n], name);
    }
  }

  lemma {:induction false} SubsetFewer(a: set<string>, b: set<string>)
    requires a <= b
    ensures |a| <= |b| && (|a| == |b| ==> a == b)
  {
    if a != {} {
      var x :| x in a;
      SubsetFewer(a - {x}, b - {x});
      assert a == (a - {x}) + {x} && b == (b - {x}) + {x};
    } else {
      assert |b| == 0 ==> b == {};
    }
  }

  /** EXACT CONDITION. Every dotted name that is called has a site if and only if
      at most 64 different dotted names are called. */
  lemma EverySiteIff(names: seq<string>)
    ensures (forall name <- names :: Dotted(name) ==> name in AddSites([], names)) <==> |DottedNames(names)| <= 64
  {
    var sites := AddSites([], names);
    AddSitesGood([], names);
    NamesCount(sites);
    assert Names(sites) <= DottedNames(names);
    SubsetFewer(Names(sites), DottedNames(names));
    if forall name <- names :: Dotted(name) ==> name in sites {
      assert Names(sites) == DottedNames(names);
    } else {
      var name :| name in names && Dotted(name) && name !in sites;
      FullOrFound(names, name);
      assert name in DottedNames(names) && name !in Names(sites);
    }
  }

  // ---- the calls of a module ----

  lemma {:induction false} InstNamed(insts: seq<Inst>, i: nat)
    requires i < |insts| && insts[i].HostCall?
    ensures insts[i].name in InstNames(insts)
  {
    if i < |insts| - 1 {
      InstNamed(insts[..|insts| - 1], i);
    }
  }

  lemma {:induction false} BlockNamed(blocks: seq<Block>, k: nat, i: nat)
    requires k < |blocks| && i < |blocks[k].insts| && blocks[k].insts[i].HostCall?
    ensures blocks[k].insts[i].name in BlockNames(blocks)
  {
    if k < |blocks| - 1 {
      BlockNamed(blocks[..|blocks| - 1], k, i);
    } else {
      InstNamed(blocks[k].insts, i);
    }
  }

  lemma {:induction false} HostNamed(functions: seq<Function>, n: nat, k: nat, i: nat)
    requires n < |functions| && k < |functions[n].blocks| && i < |functions[n].blocks[k].insts|
    requires functions[n].blocks[k].insts[i].HostCall?
    ensures functions[n].blocks[k].insts[i].name in HostNames(functions)
  {
    if n < |functions| - 1 {
      HostNamed(functions[..|functions| - 1], n, k, i);
    } else {
      BlockNamed(functions[n].blocks, k, i);
    }
  }

  /** And every name in the list is called somewhere. */
  lemma {:induction false} InstCalled(insts: seq<Inst>, name: string) returns (i: nat)
    requires name in InstNames(insts)
    ensures i < |insts| && insts[i].HostCall? && insts[i].name == name
  {
    var n := |insts| - 1;
    if name in InstNames(insts[..n]) {
      i := InstCalled(insts[..n], name);
    } else {
      i := n;
    }
  }

  lemma {:induction false} BlockCalled(blocks: seq<Block>, name: string) returns (k: nat, i: nat)
    requires name in BlockNames(blocks)
    ensures k < |blocks| && i < |blocks[k].insts| && blocks[k].insts[i].HostCall? && blocks[k].insts[i].name == name
  {
    var n := |blocks| - 1;
    if name in BlockNames(blocks[..n]) {
      k, i := BlockCalled(blocks[..n], name);
    } else {
      k := n;
      i := InstCalled(blocks[n].insts, name);
    }
  }

  lemma {:induction false} HostCalled(functions: seq<Function>, name: string) returns (n: nat, k: nat, i: nat)
    requires name in HostNames(functions)
    ensures n < |functions| && k < |functions[n].blocks| && i < |functions[n].blocks[k].insts|
    ensures functions[n].blocks[k].insts[i].HostCall? && functions[n].blocks[k].insts[i].name == name
  {
    var last := |functions| - 1;
    if name in HostNames(functions[..last]) {
      n, k, i := HostCalled(functions[..last], name);
    } else {
      n := last;
      k, i := BlockCalled(functions[last].blocks, name);
    }
  }
}
