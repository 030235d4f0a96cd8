/** What every operation of the code generator keeps: the lists of open jumps stay disjoint and threaded
    through the code, other lists are not touched, and registers are used as a stack. */
module CodeShape {
  import opened Seqs
  import opened LuaCode
  import opened CodeLists
  import opened CodeGen

  ghost predicate GenOk(s: Gen)
  {
    -1 <= s.lasttarget <= |s.code| && (s.jpc != [] ==> s.lasttarget == |s.code|) &&
    (s.code != [] ==> !IsTest(s.code[|s.code| - 1])) &&
    s.nactvar <= s.freereg <= s.maxstack < MAXSTACK &&
    |s.k| <= MAXARG_BX && forall v :: v in s.h ==> s.h[v] < |s.k| && s.k[s.h[v]] == v
  }

  /** The pending jumps and two exit lists are lists in the code, apart from each other and from the jumps
      `o` of the expressions around. */
  ghost predicate ListsOk(s: Gen, t: seq<nat>, f: seq<nat>, o: set<nat>)
  {
    Threaded(s.code, s.jpc) && Threaded(s.code, t) && Threaded(s.code, f) &&
    Apart(s.jpc, t) && Apart(s.jpc, f) && Apart(t, f) &&
    forall j :: j in o ==> j < |s.code| && s.code[j].Jmp? && j !in s.jpc && j !in t && j !in f
  }

  /** The jump at `j`, and what controls it, are the same. */
  ghost predicate SameJump(code: seq<Instr>, code': seq<Instr>, j: nat)
  {
    j < |code| && j < |code'| && code'[j] == code[j] && CarriesValue(code', j) == CarriesValue(code, j) &&
    (CarriesValue(code, j) ==> code'[j - 1] == code[j - 1])
  }

  ghost predicate Frame(code: seq<Instr>, code': seq<Instr>, o: set<nat>)
  {
    forall j :: j in o ==> SameJump(code, code', j)
  }

  lemma FrameTransitive(code: seq<Instr>, code1: seq<Instr>, code2: seq<Instr>, o: set<nat>)
    requires Frame(code, code1, o) && Frame(code1, code2, o)
    ensures Frame(code, code2, o)
  {
    forall j | j in o ensures SameJump(code, code2, j) {
      assert SameJump(code, code1, j) && SameJump(code1, code2, j);
    }
  }

  lemma ThreadedFrame(code: seq<Instr>, code': seq<Instr>, l: seq<nat>)
    requires Threaded(code, l) && forall j :: j in l ==> SameJump(code, code', j)
    ensures Threaded(code', l)
  {
    forall i | 0 <= i < |l| ensures l[i] < |code'| && code'[l[i]].Jmp? && code'[l[i]].sbx == Link(l, i) {
      assert l[i] in l;
      assert SameJump(code, code', l[i]);
    }
  }

  /** Patching one list leaves every other jump alone. */
  lemma PatchedFrame(code: seq<Instr>, code': seq<Instr>, l: seq<nat>, vtarget: int, reg: nat, dtarget: int, j: nat)
    requires AreJumps(code, l) && Patched(code, code', l, vtarget, reg, dtarget)
    requires j < |code| && code[j].Jmp? && j !in l
    ensures SameJump(code, code', j)
  {
    assert code'[j] == PatchedInstr(code, l, vtarget, reg, dtarget, j);
    if j >= 1 {
      var p := j - 1;
      assert code'[p] == PatchedInstr(code, l, vtarget, reg, dtarget, p);
      assert p + 1 !in l;
    }
  }

  lemma ListsCarry(s: Gen, s': Gen, t: seq<nat>, f: seq<nat>, o: set<nat>)
    requires ListsOk(s, t, f, o) && Frame(s.code, s'.code, Elems(t) + Elems(f) + o) && s'.jpc == []
    ensures ListsOk(s', t, f, o)
  {
    forall j | j in t || j in f || j in o ensures SameJump(s.code, s'.code, j) {
      assert j in Elems(t) + Elems(f) + o;
    }
    ThreadedFrame(s.code, s'.code, t);
    ThreadedFrame(s.code, s'.code, f);
    forall j | j in o ensures j < |s'.code| && s'.code[j].Jmp? {
      assert SameJump(s.code, s'.code, j);
    }
  }

  // ----- emitting code -----

  /** `luaK_code` settles the pending jumps on the new instruction and changes nothing else. */
  lemma CodeEffect(s: Gen, i: Instr)
    requires Threaded(s.code, s.jpc) && Code(s, i).Ok?
    ensures var s', n := Code(s, i).value, |s.code|;
            s' == s.(code := s'.code, jpc := []) && |s'.code| == n + 1 && s'.code[n] == i &&
            Patched(s.code, s'.code[..n], s.jpc, n, NO_REG, n)
  {
    PatchListEffect(s.code, s.jpc, |s.code|, NO_REG, |s.code|);
    var patched := PatchList(s.code, s.jpc, |s.code|, NO_REG, |s.code|).value;
    assert (patched + [i])[..|patched|] == patched;
  }

  lemma PrefixSameJump(code: seq<Instr>, code': seq<Instr>, j: nat)
    requires |code| <= |code'| && SameJump(code, code'[..|code|], j)
    ensures SameJump(code, code', j)
  {
  }

  lemma CodeOk(s: Gen, i: Instr, t: seq<nat>, f: seq<nat>, o: set<nat>)
    requires GenOk(s) && ListsOk(s, t, f, o) && Code(s, i).Ok?
    ensures var s', n := Code(s, i).value, |s.code|;
            s' == s.(code := s'.code, jpc := []) && |s'.code| == n + 1 && s'.code[n] == i &&
            Patched(s.code, s'.code[..n], s.jpc, n, NO_REG, n) &&
            Frame(s.code, s'.code, Elems(t) + Elems(f) + o) && ListsOk(s', t, f, o) &&
            (!IsTest(i) ==> GenOk(s'))
  {
    CodeEffect(s, i);
    var s', n := Code(s, i).value, |s.code|;
    forall j | j in Elems(t) + Elems(f) + o ensures SameJump(s.code, s'.code, j) {
      assert j in t || j in f || j in o;
      PatchedFrame(s.code, s'.code[..n], s.jpc, n, NO_REG, n, j);
      PrefixSameJump(s.code, s'.code, j);
    }
    ListsCarry(s, s', t, f, o);
  }

  lemma JumpOk(s: Gen, t: seq<nat>, f: seq<nat>, o: set<nat>)
    requires GenOk(s) && ListsOk(s, t, f, o) && Jump(s).Ok?
    ensures var s', l, n := Jump(s).value.0, Jump(s).value.1, |s.code|;
            s' == s.(code := s'.code, jpc := []) && |s'.code| == n + 1 && s'.code[n].Jmp? && l == [n] + s.jpc &&
            (s.jpc == [] ==> s'.code == s.code + [Jmp(NO_JUMP)]) &&
            (forall i :: 0 <= i < n ==> s'.code[i] == s.code[i]) &&
            Frame(s.code, s'.code, Elems(t) + Elems(f) + o) && ListsOk(s', t, f, o) && GenOk(s') &&
            Threaded(s'.code, l) && Apart(l, t) && Apart(l, f) && forall j :: j in l ==> j !in o
  {
    var s', l, n := Jump(s).value.0, Jump(s).value.1, |s.code|;
    var longer := s.code + [Jmp(NO_JUMP)];
    ThreadedFrame(s.code, longer, s.jpc);
    ConcatAppends(longer, [n], s.jpc);
    forall j | j in Elems(t) + Elems(f) + o ensures SameJump(s.code, s'.code, j) {
      assert j in t || j in f || j in o;
    }
    ListsCarry(s, s', t, f, o);
  }

  lemma CondJumpOk(s: Gen, i: Instr, t: seq<nat>, f: seq<nat>, o: set<nat>)
    requires GenOk(s) && ListsOk(s, t, f, o) && CondJump(s, i).Ok?
    ensures var s', l, n := CondJump(s, i).value.0, CondJump(s, i).value.1, |s.code|;
            s' == s.(code := s'.code, jpc := []) && |s'.code| == n + 2 && l == [n + 1] &&
            s'.code[n] == i && s'.code[n + 1] == Jmp(NO_JUMP) &&
            Patched(s.code, s'.code[..n], s.jpc, n, NO_REG, n) &&
            Frame(s.code, s'.code, Elems(t) + Elems(f) + o) && ListsOk(s', t, f, o) && GenOk(s')
  {
    CodeOk(s, i, t, f, o);
    var s1, n := Code(s, i).value, |s.code|;
    var s' := CondJump(s, i).value.0;
    assert s'.code == s1.code + [Jmp(NO_JUMP)];
    assert s'.code[..n] == s1.code[..n];
    forall j | j in Elems(t) + Elems(f) + o ensures SameJump(s.code, s'.code, j) {
      assert SameJump(s.code, s1.code, j);
    }
    ListsCarry(s, s', t, f, o);
  }

  lemma PatchToHereEffect(s: Gen, l: seq<nat>)
    requires GenOk(s) && Threaded(s.code, s.jpc) && PatchToHere(s, l).Ok?
    ensures var s' := PatchToHere(s, l).value;
            s' == s.(code := s'.code, jpc := s.jpc + l, lasttarget := |s.code|) && |s'.code| == |s.code| &&
            (forall i :: 0 <= i < |s.code| && i !in s.jpc ==> s'.code[i] == s.code[i]) && GenOk(s')
  {
    ConcatOthers(s.code, s.jpc, l);
  }

  lemma PatchToHereOk(s: Gen, l: seq<nat>, t: seq<nat>, f: seq<nat>, o: set<nat>)
    requires GenOk(s) && ListsOk(s, t, f, o) && PatchToHere(s, l).Ok?
    requires Threaded(s.code, l) && Apart(s.jpc, l) && Apart(l, t) && Apart(l, f) && forall j :: j in l ==> j !in o
    ensures var s' := PatchToHere(s, l).value;
            s' == s.(code := s'.code, jpc := s.jpc + l, lasttarget := |s.code|) && |s'.code| == |s.code| &&
            (forall i :: 0 <= i < |s.code| && i !in s.jpc ==> s'.code[i] == s.code[i]) && GenOk(s') &&
            Frame(s.code, s'.code, Elems(t) + Elems(f) + o) && ListsOk(s', t, f, o)
  {
    PatchToHereEffect(s, l);
    var s' := PatchToHere(s, l).value;
    hide GenOk;
    ConcatAppends(s.code, s.jpc, l);
    ConcatKeeps(s.code, s.jpc, l, Elems(t) + Elems(f) + o);
    hide Frame, Threaded, PatchToHere;
    ListsCarry(s, s'.(jpc := []), t, f, o);
  }

  /** Appending to a list leaves every jump that is not in it alone. */
  lemma ConcatKeeps(code: seq<Instr>, l1: seq<nat>, l2: seq<nat>, o: set<nat>)
    requires Threaded(code, l1) && Concat(code, l1, l2).Ok?
    requires forall j :: j in o ==> j < |code| && code[j].Jmp? && j !in l1
    ensures var code' := Concat(code, l1, l2).value;
            Frame(code, code', o) && |code'| == |code| &&
            forall i :: 0 <= i < |code| && i !in l1 ==> code'[i] == code[i]
  {
    ConcatOthers(code, l1, l2);
    var code' := Concat(code, l1, l2).value;
    forall j | j in o ensures SameJump(code, code', j) {
      assert code'[j] == code[j];
      if j >= 1 { assert code'[j - 1] == code[j - 1] || (code[j - 1].Jmp? && code'[j - 1].Jmp?); }
    }
  }

  lemma ConcatGenOk(s: Gen, l1: seq<nat>, l2: seq<nat>)
    requires GenOk(s) && Threaded(s.code, l1) && Concat(s.code, l1, l2).Ok?
    ensures GenOk(s.(code := Concat(s.code, l1, l2).value))
  {
    ConcatOthers(s.code, l1, l2);
  }

  /** Two lists become one; the others stay as they are. */
  lemma JoinOk(s: Gen, l1: seq<nat>, l2: seq<nat>, other: seq<nat>, o: set<nat>)
    requires GenOk(s) && ListsOk(s, l1, other, o) && Concat(s.code, l1, l2).Ok?
    requires Threaded(s.code, l2) && Apart(s.jpc, l2) && Apart(l1, l2) && Apart(l2, other) &&
             forall j :: j in l2 ==> j !in o
    ensures var s' := s.(code := Concat(s.code, l1, l2).value);
            GenOk(s') && ListsOk(s', l1 + l2, other, o) && |s'.code| == |s.code| &&
            Frame(s.code, s'.code, Elems(s.jpc) + Elems(other) + o) &&
            (forall i :: 0 <= i < |s.code| && i !in l1 ==> s'.code[i] == s.code[i])
  {
    var s' := s.(code := Concat(s.code, l1, l2).value);
    ConcatGenOk(s, l1, l2);
    hide GenOk;
    ConcatAppends(s.code, l1, l2);
    JoinFrame(s, l1, l2, other, o);
    hide Threaded, Concat;
    JoinOthers(s, s', l1, other, o);
    assert Apart(s'.jpc, l1 + l2) && Apart(l1 + l2, other);
  }

  lemma JoinFrame(s: Gen, l1: seq<nat>, l2: seq<nat>, other: seq<nat>, o: set<nat>)
    requires ListsOk(s, l1, other, o) && Concat(s.code, l1, l2).Ok?
    ensures var s' := s.(code := Concat(s.code, l1, l2).value);
            |s'.code| == |s.code| && Frame(s.code, s'.code, Elems(s.jpc) + Elems(other) + o) &&
            (forall i :: 0 <= i < |s.code| && i !in l1 ==> s'.code[i] == s.code[i])
  {
    forall j | j in Elems(s.jpc) + Elems(other) + o ensures j < |s.code| && s.code[j].Jmp? && j !in l1 {
      assert j in s.jpc || j in other || j in o;
    }
    ConcatKeeps(s.code, l1, l2, Elems(s.jpc) + Elems(other) + o);
  }

  lemma JoinOthers(s: Gen, s': Gen, l1: seq<nat>, other: seq<nat>, o: set<nat>)
    requires ListsOk(s, l1, other, o) && s' == s.(code := s'.code) &&
             Frame(s.code, s'.code, Elems(s.jpc) + Elems(other) + o)
    ensures Threaded(s'.code, s.jpc) && Threaded(s'.code, other) &&
            forall j :: j in o ==> j < |s'.code| && s'.code[j].Jmp?
  {
    forall j | j in s.jpc || j in other || j in o ensures SameJump(s.code, s'.code, j) {
      assert j in Elems(s.jpc) + Elems(other) + o;
    }
    ThreadedFrame(s.code, s'.code, s.jpc);
    ThreadedFrame(s.code, s'.code, other);
    forall j | j in o ensures j < |s'.code| && s'.code[j].Jmp? {
      assert SameJump(s.code, s'.code, j);
    }
  }
}
