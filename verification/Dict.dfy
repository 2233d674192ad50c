/** The symbol dictionary (dict.c): names become numbers, once and for all. */
module Dict {
  import opened Wrappers

  /** Where `x` stands in a list of names; the length of the list if it is not there. */
  function IndexOf(names: seq<string>, x: string): (i: nat)
    ensures x in names ==> i < |names| && names[i] == x
    ensures forall j :: 0 <= j < i && j < |names| ==> names[j] != x
  {
    if names == [] || names[0] == x then 0 else 1 + IndexOf(names[1..], x)
  }

  /** The list after `x` was looked up, and entered at the end if it was not there. */
  function Enter(names: seq<string>, x: string): seq<string> {
    if x in names then names else names + [x]
  }

  predicate NoDuplicates(names: seq<string>) {
    forall i, j :: 0 <= i < j < |names| ==> names[i] != names[j]
  }

  class SymDict {
    /** syms and len: the array's first `len` entries. */
    var syms: seq<string>
    var cap: nat

    ghost predicate Valid()
      reads this
    {
      |syms| <= cap && NoDuplicates(syms)
    }

    constructor ()
      ensures Valid() && syms == []
    {
      syms, cap := [], 0;
    }

    /** sym_id (dict.c:15-36) */
    method SymId(sym: string) returns (id: nat)
      requires Valid()
      modifies this
      ensures Valid() && syms == Enter(old(syms), sym)
      ensures id < |syms| && syms[id] == sym && id == IndexOf(syms, sym)
    {
      var i := 0;
      while i < |syms|
        invariant 0 <= i <= |syms|
        invariant forall j :: 0 <= j < i ==> syms[j] != sym
      {
        if syms[i] == sym {
          return i;
        }
        i := i + 1;
      }
      if |syms| == cap {
        cap := if cap > 0 then cap * 2 else 8;
      }
      id := |syms|;
      syms := syms + [sym];
    }

    /** id_sym (dict.c:38-43) */
    function IdSym(id: nat): (sym: Option<string>)
      reads this
      ensures sym.Some? <==> id < |syms|
      ensures forall x :: Valid() && sym == Some(x) ==> IndexOf(syms, x) == id
    {
      if id >= |syms| then None else Some(syms[id])
    }
  }

  /** The dictionary after any sequence of lookups. */
  function EnterAll(names: seq<string>, xs: seq<string>): seq<string>
    decreases |xs|
  {
    if xs == [] then names else EnterAll(Enter(names, xs[0]), xs[1..])
  }

  lemma {:induction false} EnterAllKeeps(names: seq<string>, xs: seq<string>)
    requires NoDuplicates(names)
    ensures NoDuplicates(EnterAll(names, xs)) && names <= EnterAll(names, xs)
    ensures forall k :: 0 <= k < |xs| ==> xs[k] in EnterAll(names, xs)
    decreases |xs|
  {
    if xs != [] {
      var next := Enter(names, xs[0]);
      EnterAllKeeps(next, xs[1..]);
      assert next[IndexOf(next, xs[0])] == EnterAll(names, xs)[IndexOf(next, xs[0])];
      forall k | 0 <= k < |xs|
        ensures xs[k] in EnterAll(names, xs)
      {
        if k > 0 {
          assert xs[k] == xs[1..][k - 1];
        }
      }
    }
  }

  /** Whatever is looked up in between, a name keeps its number, its number gives back the name, and
      two names have the same number exactly when they are equal. */
  lemma NumbersAreNames(names: seq<string>, xs: seq<string>, x: string, y: string)
    requires NoDuplicates(names) && x in names
    ensures var later := EnterAll(names, xs);
            && IndexOf(later, x) == IndexOf(names, x) < |later|
            && later[IndexOf(later, x)] == x
            && (y in later ==> (IndexOf(later, x) == IndexOf(later, y) <==> x == y))
  {
    EnterAllKeeps(names, xs);
    var later := EnterAll(names, xs);
    assert later[IndexOf(names, x)] == names[IndexOf(names, x)];
    assert x in later;
  }
}
