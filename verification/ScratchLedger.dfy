/**
 The reservation ledger of a session's scratch directory: what is there, plus what
 every running capture may still write, never exceeds the session's ceilings.
 */
module ScratchLedger {
  import opened Totals

  type Path = seq<string>

  /** One path is the other, or lies below it. */
  predicate Overlap(a: Path, b: Path) { a <= b || b <= a }

  const MAX_BYTES: nat := 1024 * 1024 * 1024
  const MAX_FILES: nat := 8192

  datatype Amount = Amount(bytes: nat, files: nat)

  function Over(a: int): nat { if a > 0 then a else 0 }

  /** The files at or below a root. */
  function Under(m: map<Path, nat>, root: Path): map<Path, nat> {
    map p | p in m && root <= p :: m[p]
  }

  lemma UnderPut(m: map<Path, nat>, root: Path, k: Path, w: nat)
    ensures root <= k ==> Under(m[k := w], root) == Under(m, root)[k := w]
    ensures !(root <= k) ==> Under(m[k := w], root) == Under(m, root)
    ensures Under(m - {k}, root) == Under(m, root) - {k}
  {
  }

  /** What a reservation still allows. */
  ghost function Gap(m: map<Path, nat>, root: Path, reserved: nat): nat {
    Over(reserved - Total(Under(m, root)))
  }

  ghost function Gaps(m: map<Path, nat>, reserved: map<Path, nat>): nat
    decreases |reserved|
  {
    if reserved == map[] then 0
    else
      var root :| root in reserved;
      Gap(m, root, reserved[root]) + Gaps(m, reserved - {root})
  }

  lemma {:induction false} GapsRemove(m: map<Path, nat>, reserved: map<Path, nat>, k: Path)
    requires k in reserved
    ensures Gaps(m, reserved) == Gap(m, k, reserved[k]) + Gaps(m, reserved - {k})
    decreases |reserved|
  {
    var root :| root in reserved && Gaps(m, reserved) == Gap(m, root, reserved[root]) + Gaps(m, reserved - {root});
    if root != k {
      GapsRemove(m, reserved - {root}, k);
      GapsRemove(m, reserved - {k}, root);
      assert reserved - {root} - {k} == reserved - {k} - {root};
    }
  }

  /** Gaps below which nothing changed are what they were. */
  lemma {:induction false} GapsSame(m: map<Path, nat>, m': map<Path, nat>, reserved: map<Path, nat>)
    requires forall root <- reserved :: Under(m, root) == Under(m', root)
    ensures Gaps(m, reserved) == Gaps(m', reserved)
    decreases |reserved|
  {
    if reserved != map[] {
      var root :| root in reserved;
      GapsRemove(m, reserved, root);
      GapsRemove(m', reserved, root);
      GapsSame(m, m', reserved - {root});
    }
  }

  /** _scratch_commitment, for one of its two quantities. */
  ghost function Commitment(m: map<Path, nat>, reserved: map<Path, nat>): nat {
    Total(m) + Gaps(m, reserved)
  }

  ghost predicate DisjointRoots(roots: set<Path>) {
    forall a <- roots, b <- roots :: a != b ==> !Overlap(a, b)
  }

  /** A write inside a reservation moves bytes from the reservation to the files. */
  lemma WriteInside(m: map<Path, nat>, reserved: map<Path, nat>, root: Path, p: Path, w: nat)
    requires DisjointRoots(reserved.Keys) && root in reserved && root <= p
    requires Total(Under(m, root)) <= reserved[root] && Total(Under(m[p := w], root)) <= reserved[root]
    ensures Commitment(m[p := w], reserved) == Commitment(m, reserved)
  {
    var m' := m[p := w];
    forall other <- reserved - {root}
      ensures Under(m, other) == Under(m', other)
    {
      UnderPut(m, other, p, w);
    }
    GapsSame(m, m', reserved - {root});
    GapsRemove(m, reserved, root);
    GapsRemove(m', reserved, root);
    TotalPut(m, p, w);
    UnderPut(m, root, p, w);
    TotalPut(Under(m, root), p, w);
  }

  lemma RemoveOne(m: map<Path, nat>, reserved: map<Path, nat>, p: Path)
    requires DisjointRoots(reserved.Keys) && p in m
    ensures Commitment(m - {p}, reserved) <= Commitment(m, reserved)
  {
    var m' := m - {p};
    TotalRemove(m, p);
    if root :| root in reserved && root <= p {
      forall other <- reserved - {root}
        ensures Under(m, other) == Under(m', other)
      {
      }
      GapsSame(m, m', reserved - {root});
      GapsRemove(m, reserved, root);
      GapsRemove(m', reserved, root);
      UnderPut(m, root, p, 0);
      TotalRemove(Under(m, root), p);
    } else {
      forall root <- reserved
        ensures Under(m, root) == Under(m', root)
      {
      }
      GapsSame(m, m', reserved);
    }
  }

  /** Deleting files never raises the commitment, reserved or not. */
  lemma {:induction false} RemoveRaisesNothing(m: map<Path, nat>, reserved: map<Path, nat>, gone: set<Path>)
    requires DisjointRoots(reserved.Keys)
    ensures Commitment(m - gone, reserved) <= Commitment(m, reserved)
    decreases |gone|
  {
    if gone == {} {
      assert m - gone == m;
    } else {
      var p :| p in gone;
      RemoveRaisesNothing(m, reserved, gone - {p});
      var rest := m - (gone - {p});
      if p in rest {
        RemoveOne(rest, reserved, p);
        assert rest - {p} == m - gone;
      } else {
        assert rest == m - gone;
      }
    }
  }

  /** Nor does giving up a reservation. */
  lemma ReleaseRaisesNothing(m: map<Path, nat>, reserved: map<Path, nat>, root: Path)
    requires root in reserved
    ensures Commitment(m, reserved - {root}) <= Commitment(m, reserved)
  {
    GapsRemove(m, reserved, root);
  }

  /** A new reservation adds what it reserves. */
  lemma AdmissionAdds(m: map<Path, nat>, reserved: map<Path, nat>, root: Path, n: nat)
    requires root !in reserved && Under(m, root) == map[]
    ensures Commitment(m, reserved[root := n]) == Commitment(m, reserved) + n
  {
    GapsRemove(m, reserved[root := n], root);
    assert reserved[root := n] - {root} == reserved;
  }

  /** A file outside every reservation adds its size. */
  lemma OutsideAdds(m: map<Path, nat>, reserved: map<Path, nat>, p: Path, w: nat)
    requires p !in m && forall root <- reserved :: !(root <= p)
    ensures Commitment(m[p := w], reserved) == Commitment(m, reserved) + w
  {
    forall root <- reserved
      ensures Under(m, root) == Under(m[p := w], root)
    {
      UnderPut(m, root, p, w);
    }
    GapsSame(m, m[p := w], reserved);
    TotalPut(m, p, w);
    assert m - {p} == m;
  }

  /** The scratch directory: its regular files and what is reserved below which root. */
  datatype Scratch = Scratch(files: map<Path, nat>, reserved: map<Path, Amount>)

  ghost function Ones(m: map<Path, nat>): map<Path, nat> {
    map p | p in m :: 1
  }

  lemma {:induction false} OnesCount(m: map<Path, nat>)
    ensures Total(Ones(m)) == |m|
    decreases |m|
  {
    if m == map[] {
      assert Ones(m) == map[];
    } else {
      var p :| p in m;
      OnesCount(m - {p});
      TotalRemove(Ones(m), p);
      assert Ones(m) - {p} == Ones(m - {p});
    }
  }

  ghost function ReservedBytes(reserved: map<Path, Amount>): map<Path, nat> {
    map root | root in reserved :: reserved[root].bytes
  }

  ghost function ReservedFiles(reserved: map<Path, Amount>): map<Path, nat> {
    map root | root in reserved :: reserved[root].files
  }

  /** _scratch_commitment. */
  ghost function Committed(s: Scratch): Amount {
    Amount(Commitment(s.files, ReservedBytes(s.reserved)), Commitment(Ones(s.files), ReservedFiles(s.reserved)))
  }

  /** There is room for this much more. */
  ghost predicate Room(s: Scratch, more: Amount) {
    Committed(s).bytes + more.bytes <= MAX_BYTES && Committed(s).files + more.files <= MAX_FILES
  }

  datatype Action =
    | Admit(root: Path, amount: Amount)
    | Write(root: Path, path: Path, size: nat)
    | Acquire(path: Path, size: nat)
    | Remove(gone: set<Path>)
    | Release(root: Path)

  /** What a write leaves below its root fits what was reserved. */
  ghost predicate Fits(s: Scratch, root: Path) {
    root in s.reserved ==>
      && Total(Under(s.files, root)) <= s.reserved[root].bytes
      && Total(Under(Ones(s.files), root)) <= s.reserved[root].files
  }

  /** One step.  A capture is admitted only where the ceilings leave room, and writes
      only below its root and only as much as it reserved; an evidence bundle is
      acquired outside every reservation, where the ceilings leave room; files are
      removed and reservations given up at any time. */
  ghost function Step(s: Scratch, a: Action): Scratch {
    match a
    case Admit(root, amount) =>
      if Room(s, amount) && Under(s.files, root) == map[] && (forall other <- s.reserved :: !Overlap(root, other)) then
        s.(reserved := s.reserved[root := amount])
      else s
    case Write(root, p, size) =>
      var s' := s.(files := s.files[p := size]);
      if root in s.reserved && root <= p && Fits(s', root) then s' else s
    case Acquire(p, size) =>
      if Room(s, Amount(size, 1)) && p !in s.files && (forall root <- s.reserved :: !(root <= p)) then
        s.(files := s.files[p := size])
      else s
    case Remove(gone) => s.(files := s.files - gone)
    case Release(root) => s.(reserved := s.reserved - {root})
  }

  ghost predicate Inv(s: Scratch) {
    DisjointRoots(s.reserved.Keys) && Room(s, Amount(0, 0)) && forall root <- s.reserved :: Fits(s, root)
  }

  lemma OnesPut(m: map<Path, nat>, p: Path, w: nat, root: Path)
    ensures Ones(m[p := w]) == Ones(m)[p := 1]
  {
  }

  lemma OtherRootsFit(s: Scratch, root: Path, p: Path, size: nat)
    requires DisjointRoots(s.reserved.Keys) && root in s.reserved && root <= p
    requires forall other <- s.reserved :: Fits(s, other)
    ensures forall other <- s.reserved :: other != root ==> Fits(s.(files := s.files[p := size]), other)
  {
    OnesPut(s.files, p, size, root);
    forall other <- s.reserved | other != root
      ensures Fits(s.(files := s.files[p := size]), other)
    {
      UnderPut(s.files, other, p, size);
      UnderPut(Ones(s.files), other, p, 1);
    }
  }

  lemma WriteStep(s: Scratch, root: Path, p: Path, size: nat)
    requires Inv(s) && root in s.reserved && root <= p && Fits(s.(files := s.files[p := size]), root)
    ensures var s' := s.(files := s.files[p := size]);
            Inv(s') && Committed(s') == Committed(s)
  {
    OnesPut(s.files, p, size, root);
    var b, f := ReservedBytes(s.reserved), ReservedFiles(s.reserved);
    assert b.Keys == s.reserved.Keys && f.Keys == s.reserved.Keys;
    WriteInside(s.files, b, root, p, size);
    WriteInside(Ones(s.files), f, root, p, 1);
    OtherRootsFit(s, root, p, size);
  }

  lemma {:induction false} UnderShrinks(m: map<Path, nat>, gone: set<Path>, root: Path)
    ensures Total(Under(m - gone, root)) <= Total(Under(m, root))
    decreases |gone|
  {
    if gone == {} {
      assert m - gone == m;
    } else {
      var p :| p in gone;
      UnderShrinks(m, gone - {p}, root);
      var rest := Under(m - (gone - {p}), root);
      TotalPut(rest, p, 0);
      assert Under(m - gone, root) == rest - {p};
    }
  }

  lemma RemoveStep(s: Scratch, gone: set<Path>)
    requires Inv(s)
    ensures Inv(Step(s, Remove(gone)))
    ensures Committed(Step(s, Remove(gone))).bytes <= Committed(s).bytes
    ensures Committed(Step(s, Remove(gone))).files <= Committed(s).files
  {
    var b, f := ReservedBytes(s.reserved), ReservedFiles(s.reserved);
    assert b.Keys == s.reserved.Keys && f.Keys == s.reserved.Keys;
    RemoveRaisesNothing(s.files, b, gone);
    RemoveRaisesNothing(Ones(s.files), f, gone);
    assert Ones(s.files - gone) == Ones(s.files) - gone;
    forall root <- s.reserved
      ensures Fits(Step(s, Remove(gone)), root)
    {
      UnderShrinks(s.files, gone, root);
      UnderShrinks(Ones(s.files), gone, root);
    }
  }

  lemma ReservedWithout(reserved: map<Path, Amount>, root: Path)
    ensures ReservedBytes(reserved - {root}) == ReservedBytes(reserved) - {root}
    ensures ReservedFiles(reserved - {root}) == ReservedFiles(reserved) - {root}
    ensures root in reserved ==> root in ReservedBytes(reserved) && root in ReservedFiles(reserved)
  {
  }

  lemma ReleaseLowers(s: Scratch, root: Path)
    ensures var after := Committed(s.(reserved := s.reserved - {root}));
            after.bytes <= Committed(s).bytes && after.files <= Committed(s).files
  {
    hide Commitment, ReservedBytes, ReservedFiles, Ones;
    ReservedWithout(s.reserved, root);
    if root in s.reserved {
      ReleaseRaisesNothing(s.files, ReservedBytes(s.reserved), root);
      ReleaseRaisesNothing(Ones(s.files), ReservedFiles(s.reserved), root);
    } else {
      assert s.reserved - {root} == s.reserved;
    }
  }

  lemma ReleaseStep(s: Scratch, root: Path)
    requires Inv(s)
    ensures Inv(Step(s, Release(root)))
    ensures Committed(Step(s, Release(root))).bytes <= Committed(s).bytes
    ensures Committed(Step(s, Release(root))).files <= Committed(s).files
  {
    hide Committed, Total, Under, Ones;
    ReleaseLowers(s, root);
  }

  lemma Admitted(s: Scratch, root: Path, amount: Amount)
    requires root !in s.reserved && Under(s.files, root) == map[]
    ensures var s' := s.(reserved := s.reserved[root := amount]);
            && Committed(s') == Amount(Committed(s).bytes + amount.bytes, Committed(s).files + amount.files)
            && Fits(s', root)
  {
    hide Commitment;
    var b, f := ReservedBytes(s.reserved), ReservedFiles(s.reserved);
    var reserved' := s.reserved[root := amount];
    assert ReservedBytes(reserved') == b[root := amount.bytes];
    assert ReservedFiles(reserved') == f[root := amount.files];
    assert Under(Ones(s.files), root) == Ones(Under(s.files, root)) == map[];
    AdmissionAdds(s.files, b, root, amount.bytes);
    AdmissionAdds(Ones(s.files), f, root, amount.files);
  }

  lemma AdmitStep(s: Scratch, root: Path, amount: Amount)
    requires Inv(s)
    ensures Inv(Step(s, Admit(root, amount)))
  {
    hide Committed;
    if Step(s, Admit(root, amount)) != s {
      assert Overlap(root, root);
      Admitted(s, root, amount);
    }
  }

  lemma AcquireStep(s: Scratch, p: Path, size: nat)
    requires Inv(s)
    ensures Inv(Step(s, Acquire(p, size)))
  {
    var s' := Step(s, Acquire(p, size));
    if s' != s {
      var b, f := ReservedBytes(s.reserved), ReservedFiles(s.reserved);
      OnesPut(s.files, p, size, p);
      OutsideAdds(s.files, b, p, size);
      OutsideAdds(Ones(s.files), f, p, 1);
      forall root <- s.reserved
        ensures Fits(s', root)
      {
        UnderPut(s.files, root, p, size);
        UnderPut(Ones(s.files), root, p, 1);
      }
    }
  }

  ghost function Run(s: Scratch, actions: seq<Action>): Scratch
    decreases |actions|
  {
    if actions == [] then s
    else Step(Run(s, actions[..|actions| - 1]), actions[|actions| - 1])
  }

  lemma StepKeeps(s: Scratch, a: Action)
    requires Inv(s)
    ensures Inv(Step(s, a))
  {
    match a
    case Admit(root, amount) => AdmitStep(s, root, amount);
    case Write(root, p, size) =>
      if root in s.reserved && root <= p && Fits(s.(files := s.files[p := size]), root) {
        WriteStep(s, root, p, size);
      }
    case Acquire(p, size) => AcquireStep(s, p, size);
    case Remove(gone) => RemoveStep(s, gone);
    case Release(root) => ReleaseStep(s, root);
  }

  /** In every run the commitment, and with it what really lies in the scratch
      directory, stays within the session's ceilings. */
  lemma {:induction false} CeilingsHold(actions: seq<Action>)
    ensures var s := Run(Scratch(map[], map[]), actions);
            && Inv(s) && Committed(s).bytes <= MAX_BYTES && Committed(s).files <= MAX_FILES
            && Total(s.files) <= MAX_BYTES && |s.files| <= MAX_FILES
    decreases |actions|
  {
    var s := Run(Scratch(map[], map[]), actions);
    if actions == [] {
      assert Ones(map[]) == map[];
      assert ReservedBytes(map[]) == map[] && ReservedFiles(map[]) == map[];
    } else {
      hide Inv, Step;
      CeilingsHold(actions[..|actions| - 1]);
      StepKeeps(Run(Scratch(map[], map[]), actions[..|actions| - 1]), actions[|actions| - 1]);
    }
    Ceilings(s);
  }

  lemma Ceilings(s: Scratch)
    requires Inv(s)
    ensures Committed(s).bytes <= MAX_BYTES && Committed(s).files <= MAX_FILES
    ensures Total(s.files) <= MAX_BYTES && |s.files| <= MAX_FILES
  {
    OnesCount(s.files);
  }
}
