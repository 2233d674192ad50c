/** The labels of a processor: what the compiler's table says about them, and what filling in the gotos
    makes of the code (compiler.c:374-410, compiler.c:1025-1037). */
module Resolve {
  import opened Wrappers
  import opened Bytes
  import opened Bytecode
  import opened Syntax
  import opened Dict
  import opened CodeGen
  import opened Assembler
  import opened Backpatch

  /** A label: its symbol, its address once it is defined, and the open gotos. */
  datatype LabelEntry = LabelEntry(id: nat, defined: bool, addr: nat, gotos: seq<nat>)

  predicate NamedLabels(labels: seq<LabelEntry>, syms: seq<string>) {
    && (forall i :: 0 <= i < |labels| ==> labels[i].id < |syms|)
    && (forall i, j :: 0 <= i < j < |labels| ==> labels[i].id != labels[j].id)
  }

  predicate DefsMatch(labels: seq<LabelEntry>, syms: seq<string>, defs: Labels)
    requires NamedLabels(labels, syms)
  {
    && (forall i :: 0 <= i < |labels| && labels[i].defined ==>
          syms[labels[i].id] in defs && defs[syms[labels[i].id]] == labels[i].addr)
    && (forall x :: x in defs ==> exists i :: 0 <= i < |labels| && labels[i].defined && syms[labels[i].id] == x)
  }

  predicate GotosMatch(labels: seq<LabelEntry>, syms: seq<string>, gotos: set<(nat, string)>)
    requires NamedLabels(labels, syms)
  {
    && (forall i, h :: 0 <= i < |labels| && h in labels[i].gotos ==> (h, syms[labels[i].id]) in gotos)
    && (forall g :: g in gotos ==> exists i :: 0 <= i < |labels| && syms[labels[i].id] == g.1 && g.0 in labels[i].gotos)
  }

  predicate LabelsMatch(labels: seq<LabelEntry>, syms: seq<string>, defs: Labels, gotos: set<(nat, string)>) {
    NamedLabels(labels, syms) && DefsMatch(labels, syms, defs) && GotosMatch(labels, syms, gotos)
  }

  lemma LabelsMatchLater(labels: seq<LabelEntry>, syms: seq<string>, more: seq<string>, defs: Labels,
                         gotos: set<(nat, string)>)
    requires LabelsMatch(labels, syms, defs, gotos) && syms <= more
    ensures LabelsMatch(labels, more, defs, gotos)
  {
    assert forall i :: 0 <= i < |labels| ==> more[labels[i].id] == syms[labels[i].id];
    DefsMatchLater(labels, syms, more, defs);
    GotosMatchLater(labels, syms, more, gotos);
    hide DefsMatch, GotosMatch;
  }

  lemma DefsMatchLater(labels: seq<LabelEntry>, syms: seq<string>, more: seq<string>, defs: Labels)
    requires NamedLabels(labels, syms) && NamedLabels(labels, more) && DefsMatch(labels, syms, defs)
    requires forall i :: 0 <= i < |labels| ==> more[labels[i].id] == syms[labels[i].id]
    ensures DefsMatch(labels, more, defs)
  {
    hide NamedLabels;
  }

  lemma GotosMatchLater(labels: seq<LabelEntry>, syms: seq<string>, more: seq<string>, gotos: set<(nat, string)>)
    requires NamedLabels(labels, syms) && NamedLabels(labels, more) && GotosMatch(labels, syms, gotos)
    requires forall i :: 0 <= i < |labels| ==> more[labels[i].id] == syms[labels[i].id]
    ensures GotosMatch(labels, more, gotos)
  {
    hide NamedLabels;
  }

  /** Defined labels and the definitions behind them stay the same. */
  lemma DefsKept(labels: seq<LabelEntry>, more: seq<LabelEntry>, syms: seq<string>, defs: Labels)
    requires NamedLabels(labels, syms) && NamedLabels(more, syms) && DefsMatch(labels, syms, defs)
    requires |labels| <= |more|
    requires forall i :: 0 <= i < |labels| ==> more[i] == labels[i].(gotos := more[i].gotos)
    requires forall i :: |labels| <= i < |more| ==> !more[i].defined
    ensures DefsMatch(more, syms, defs)
  {
    forall x | x in defs
      ensures exists i :: 0 <= i < |more| && more[i].defined && syms[more[i].id] == x
    {
      var i :| 0 <= i < |labels| && labels[i].defined && syms[labels[i].id] == x;
      assert more[i].defined && syms[more[i].id] == x;
    }
  }

  /** The open gotos stay the same. */
  lemma GotosKept(labels: seq<LabelEntry>, more: seq<LabelEntry>, syms: seq<string>, gotos: set<(nat, string)>)
    requires NamedLabels(labels, syms) && NamedLabels(more, syms) && GotosMatch(labels, syms, gotos)
    requires |labels| <= |more|
    requires forall i :: 0 <= i < |labels| ==> more[i].id == labels[i].id && more[i].gotos == labels[i].gotos
    requires forall i :: |labels| <= i < |more| ==> more[i].gotos == []
    ensures GotosMatch(more, syms, gotos)
  {
    forall g | g in gotos
      ensures exists i :: 0 <= i < |more| && syms[more[i].id] == g.1 && g.0 in more[i].gotos
    {
      var i :| 0 <= i < |labels| && syms[labels[i].id] == g.1 && g.0 in labels[i].gotos;
      assert syms[more[i].id] == g.1 && g.0 in more[i].gotos;
    }
  }

  lemma FreshLabel(labels: seq<LabelEntry>, syms: seq<string>, id: nat, defs: Labels, gotos: set<(nat, string)>)
    requires LabelsMatch(labels, syms, defs, gotos) && id < |syms|
    requires forall i :: 0 <= i < |labels| ==> labels[i].id != id
    ensures LabelsMatch(labels + [LabelEntry(id, false, 0, [])], syms, defs, gotos)
  {
    hide DefsMatch, GotosMatch;
    var more := labels + [LabelEntry(id, false, 0, [])];
    DefsKept(labels, more, syms, defs);
    GotosKept(labels, more, syms, gotos);
  }

  lemma DefinedLabel(labels: seq<LabelEntry>, syms: seq<string>, k: nat, addr: nat, defs: Labels, gotos: set<(nat,
                     string)>)
    requires LabelsMatch(labels, syms, defs, gotos) && NoDuplicates(syms) && k < |labels|
    ensures LabelsMatch(labels[k := labels[k].(defined := true, addr := addr)], syms, defs[syms[labels[k].id] := addr], gotos)
  {
    var more := labels[k := labels[k].(defined := true, addr := addr)];
    assert NamedLabels(more, syms);
    DefinedLabelDefs(labels, more, syms, k, defs);
    hide DefsMatch, GotosMatch, NoDuplicates;
    GotosKept(labels, more, syms, gotos);
  }

  lemma DefinedLabelDefs(labels: seq<LabelEntry>, more: seq<LabelEntry>, syms: seq<string>, k: nat, defs: Labels)
    requires NamedLabels(labels, syms) && NamedLabels(more, syms) && DefsMatch(labels, syms, defs) && NoDuplicates(syms)
    requires k < |labels| == |more| && more == labels[k := more[k]] && more[k].id == labels[k].id && more[k].defined
    ensures DefsMatch(more, syms, defs[syms[labels[k].id] := more[k].addr])
  {
    var x := syms[labels[k].id];
    forall i | 0 <= i < |labels| && i != k
      ensures more[i] == labels[i] && syms[labels[i].id] != x
    {
    }
    hide NoDuplicates;
    var later := defs[x := more[k].addr];
    forall y | y in later
      ensures exists i :: 0 <= i < |more| && more[i].defined && syms[more[i].id] == y
    {
      if y == x {
        assert more[k].defined && syms[more[k].id] == y;
      } else {
        var i :| 0 <= i < |labels| && labels[i].defined && syms[labels[i].id] == y;
        assert more[i] == labels[i];
      }
    }
  }

  lemma OneMoreGoto(labels: seq<LabelEntry>, syms: seq<string>, k: nat, h: nat, defs: Labels, gotos: set<(nat, string)>)
    requires LabelsMatch(labels, syms, defs, gotos) && k < |labels|
    ensures LabelsMatch(labels[k := labels[k].(gotos := labels[k].gotos + [h])], syms, defs, gotos + {(h, syms[labels[k].id])})
  {
    var more := labels[k := labels[k].(gotos := labels[k].gotos + [h])];
    assert NamedLabels(more, syms);
    OneMoreGotoOpen(labels, more, syms, k, h, gotos);
    hide DefsMatch, GotosMatch;
    DefsKept(labels, more, syms, defs);
  }

  lemma OneMoreGotoOpen(labels: seq<LabelEntry>, more: seq<LabelEntry>, syms: seq<string>, k: nat, h: nat,
                        gotos: set<(nat, string)>)
    requires NamedLabels(labels, syms) && NamedLabels(more, syms) && GotosMatch(labels, syms, gotos)
    requires k < |labels| && more == labels[k := labels[k].(gotos := labels[k].gotos + [h])]
    ensures GotosMatch(more, syms, gotos + {(h, syms[labels[k].id])})
  {
    var x := syms[labels[k].id];
    assert h in more[k].gotos && syms[more[k].id] == x;
    assert forall i, g :: 0 <= i < |labels| && g in labels[i].gotos ==> g in more[i].gotos;
    forall g | g in gotos + {(h, x)}
      ensures exists i :: 0 <= i < |more| && syms[more[i].id] == g.1 && g.0 in more[i].gotos
    {
      if g in gotos {
        var i :| 0 <= i < |labels| && syms[labels[i].id] == g.1 && g.0 in labels[i].gotos;
        assert g.0 in more[i].gotos && syms[more[i].id] == g.1;
      }
    }
  }

  /** Every label but the k-th is defined or gone to. */
  predicate Used(labels: seq<LabelEntry>, k: nat) {
    forall i :: 0 <= i < |labels| && i != k ==> labels[i].defined || labels[i].gotos != []
  }

  // ----- Filling in the gotos -----

  /** The open gotos of all labels. */
  function AllGotos(labels: seq<LabelEntry>): set<nat>
    decreases |labels|
  {
    if labels == [] then {} else Elems(labels[0].gotos) + AllGotos(labels[1..])
  }

  predicate GotosInside(labels: seq<LabelEntry>, n: nat) {
    forall i, k :: 0 <= i < |labels| && 0 <= k < |labels[i].gotos| ==> InBounds(n, labels[i].gotos[k])
  }

  /** Every goto gets the address of its label. */
  function ResolveAll(code: seq<byte>, labels: seq<LabelEntry>): (r: seq<byte>)
    requires GotosInside(labels, |code|)
    ensures |r| == |code|
    decreases |labels|
  {
    if labels == [] then code else
    assert forall k :: 0 <= k < |labels[0].gotos| ==> InBounds(|code|, labels[0].gotos[k]);
    ResolveAll(PatchAll(code, labels[0].gotos, labels[0].addr), labels[1..])
  }

  lemma {:induction false} AllGotosHas(labels: seq<LabelEntry>, i: nat, h: nat)
    requires i < |labels| && h in labels[i].gotos
    ensures h in AllGotos(labels)
    decreases |labels|
  {
    if i > 0 {
      AllGotosHas(labels[1..], i - 1, h);
    }
  }

  /** Once every goto has its label's address, nothing is left open. */
  lemma {:induction false} ResolveCloses(code: seq<byte>, want: seq<byte>, labels: seq<LabelEntry>)
    requires |code| <= 0xFFFF && GotosInside(labels, |code|)
    requires forall i, k :: 0 <= i < |labels| && 0 <= k < |labels[i].gotos| ==> OperandIs(want, labels[i].gotos[k], labels[i].addr)
    requires Agree(code, 0, want, Spread(AllGotos(labels)))
    ensures ResolveAll(code, labels) == want
    decreases |labels|
  {
    hide OperandIs, Patch, Spread, PatchAll, Elems;
    if labels == [] {
      NoHoles();
      assert code == want;
    } else {
      var first, rest := labels[0], labels[1..];
      OpenSplit(Elems(first.gotos), AllGotos(rest));
      forall k | 0 <= k < |first.gotos|
        ensures 0 <= first.gotos[k] && first.gotos[k] + 1 < |code| && OperandIs(want, first.gotos[k] - 0, first.addr)
      {
        OperandFits(want, first.gotos[k], first.addr);
      }
      PatchAllCloses(code, 0, want, first.gotos, first.addr, Spread(AllGotos(rest)));
      forall i, k | 0 <= i < |rest| && 0 <= k < |rest[i].gotos|
        ensures InBounds(|code|, rest[i].gotos[k]) && OperandIs(want, rest[i].gotos[k], rest[i].addr)
      {
        assert rest[i] == labels[i + 1];
      }
      ResolveCloses(PatchAll(code, first.gotos, first.addr), want, rest);
    }
  }

  lemma OpenSplit(x: set<nat>, y: set<nat>)
    ensures Spread(x + y) == Spread(x) + Spread(y)
  {
  }

  lemma OperandFits(want: seq<byte>, off: nat, t: nat)
    requires OperandIs(want, off, t)
    ensures off + 1 < |want|
  {
  }

  /** All labels are defined exactly when every goto of the body has a label. */
  lemma AllDefinedIff(labels: seq<LabelEntry>, syms: seq<string>, defs: Labels, gotos: set<(nat, string)>)
    requires LabelsMatch(labels, syms, defs, gotos) && Used(labels, |labels|) && NoDuplicates(syms)
    ensures (forall i :: 0 <= i < |labels| ==> labels[i].defined) <==> (forall g :: g in gotos ==> g.1 in defs)
  {
    if forall i :: 0 <= i < |labels| ==> labels[i].defined {
      forall g | g in gotos
        ensures g.1 in defs
      {
        var i :| 0 <= i < |labels| && syms[labels[i].id] == g.1 && g.0 in labels[i].gotos;
      }
    }
    if forall g :: g in gotos ==> g.1 in defs {
      forall i | 0 <= i < |labels|
        ensures labels[i].defined
      {
        if !labels[i].defined {
          var h := labels[i].gotos[0];
          assert (h, syms[labels[i].id]) in gotos;
          var j :| 0 <= j < |labels| && labels[j].defined && syms[labels[j].id] == syms[labels[i].id];
          OneEntry(labels, syms, i, j);
        }
      }
    }
  }

  lemma OneEntry(labels: seq<LabelEntry>, syms: seq<string>, i: nat, j: nat)
    requires NamedLabels(labels, syms) && NoDuplicates(syms) && i < |labels| && j < |labels|
    requires syms[labels[i].id] == syms[labels[j].id]
    ensures i == j
  {
  }

  /** What a goto of the body wants is the address of its label's last definition. */
  lemma GotoWants(body: Stmt, env: Env, labels: seq<LabelEntry>, syms: seq<string>, defs: Labels, gotos: set<(nat,
                  string)>, i: nat, h: nat)
    requires LegalStmt(body, false) && LabelsMatch(labels, syms, defs, gotos) && gotos == GotoHoles(body, 0)
    requires i < |labels| && labels[i].defined && h in labels[i].gotos
    ensures OperandIs(EncodeAll(Asm(body, 0, 0, 0, defs, env)), h, labels[i].addr)
  {
    hide EncodeAll, Asm, OperandIs, GotoHoles, LegalStmt;
    HoleWants(body, 0, 0, 0, defs, env, h, Some(syms[labels[i].id]));
  }

  lemma GotosCovered(labels: seq<LabelEntry>, syms: seq<string>, defs: Labels, gotos: set<(nat, string)>)
    requires LabelsMatch(labels, syms, defs, gotos)
    ensures Places(gotos) <= AllGotos(labels)
  {
    hide AllGotos, DefsMatch;
    forall h | h in Places(gotos)
      ensures h in AllGotos(labels)
    {
      var g :| g in gotos && g.0 == h;
      var i :| 0 <= i < |labels| && syms[labels[i].id] == g.1 && g.0 in labels[i].gotos;
      AllGotosHas(labels, i, h);
    }
  }

  /** The compiled code with every goto filled in is the assembled program: no byte is left open, and
      each goto has the address of the last definition of its label. */
  lemma Resolved(body: Stmt, code: seq<byte>, env: Env, labels: seq<LabelEntry>, syms: seq<string>, defs: Labels,
                 gotos: set<(nat, string)>)
    requires LegalStmt(body, false) && |code| <= 0xFFFF
    requires LabelsMatch(labels, syms, defs, gotos) && GotosInside(labels, |code|)
    requires defs == Defs(body, 0, map[]) && gotos == GotoHoles(body, 0)
    requires forall i :: 0 <= i < |labels| ==> labels[i].defined
    requires Agree(code, 0, EncodeAll(Asm(body, 0, 0, 0, defs, env)), Open(body, 0))
    ensures ResolveAll(code, labels) == EncodeAll(Asm(body, 0, 0, 0, defs, env))
  {
    hide EncodeAll, Asm, Agree, OperandIs, GotoHoles, BreakHoles, LegalStmt, Defs, LabelsMatch, AllGotos, Places;
    var want := EncodeAll(Asm(body, 0, 0, 0, defs, env));
    NoBreaksOutside(body, 0);
    NoHoles();
    forall i, k | 0 <= i < |labels| && 0 <= k < |labels[i].gotos|
      ensures OperandIs(want, labels[i].gotos[k], labels[i].addr)
    {
      GotoWants(body, env, labels, syms, defs, gotos, i, labels[i].gotos[k]);
    }
    GotosCovered(labels, syms, defs, gotos);
    AgreeMore(code, 0, want, Open(body, 0), Spread(AllGotos(labels)));
    ResolveCloses(code, want, labels);
  }
}
