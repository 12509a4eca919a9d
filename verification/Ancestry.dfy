/**
 The process-ancestry walk of the core manager (src/imcodex/core_manager.py): is a process the root
 process or one of its descendants, for any parent map the operating system may report.
 */
module Ancestry {

  // `parent_by_pid.get(current, 0)`
  function Parent(parents: map<int, int>, pid: int): int {
    if pid in parents then parents[pid] else 0
  }

  // The process reached after n parent steps.
  function Up(parents: map<int, int>, pid: int, n: nat): int {
    if n == 0 then pid else Parent(parents, Up(parents, pid, n - 1))
  }

  // n parent steps, all of them from and to positive pids, lead from the candidate to the root.
  predicate Leads(parents: map<int, int>, candidate: int, root: int, n: nat) {
    Up(parents, candidate, n) == root && forall i :: 0 <= i <= n ==> Up(parents, candidate, i) > 0
  }

  ghost predicate SameOrDescendant(parents: map<int, int>, candidate: int, root: int) {
    exists n: nat :: Leads(parents, candidate, root, n)
  }

  // `_pid_is_same_or_descendant`: the walk ends, on cyclic maps too, and answers exactly.
  method PidIsSameOrDescendant(candidate: int, root: int, parents: map<int, int>) returns (r: bool)
    ensures r <==> SameOrDescendant(parents, candidate, root)
  {
    var current := candidate;
    var visited: set<int> := {};
    ghost var k := 0;
    ghost var pids := {candidate, 0} + parents.Values;
    while current > 0 && current !in visited
      invariant current == Up(parents, candidate, k)
      invariant forall pid :: pid in visited ==> Visited(parents, candidate, k, pid)
      invariant forall i :: 0 <= i < k ==> Up(parents, candidate, i) in visited
      invariant forall pid :: pid in visited ==> pid > 0 && pid != root
      invariant current in pids && visited <= pids
      decreases pids - visited
    {
      if current == root {
        assert Leads(parents, candidate, root, k);
        return true;
      }
      assert Visited(parents, candidate, k + 1, current);
      visited := visited + {current};
      current := Parent(parents, current);
      k := k + 1;
    }
    if current > 0 {
      ghost var j :| 0 <= j < k && Up(parents, candidate, j) == current;
      forall n: nat ensures !Leads(parents, candidate, root, n) {
        CycleStaysVisited(parents, candidate, j, k, n);
      }
    } else {
      forall n: nat ensures !Leads(parents, candidate, root, n) {
        if n < k {
          assert Up(parents, candidate, n) in visited;
        }
      }
    }
    r := false;
  }

  ghost predicate Visited(parents: map<int, int>, candidate: int, k: nat, pid: int) {
    exists i :: 0 <= i < k && Up(parents, candidate, i) == pid
  }

  // Once the walk comes back to a process it has seen, it sees nothing new.
  lemma {:induction false} CycleStaysVisited(parents: map<int, int>, candidate: int, j: nat, k: nat, n: nat)
    requires j < k && Up(parents, candidate, j) == Up(parents, candidate, k)
    ensures Visited(parents, candidate, k, Up(parents, candidate, n))
  {
    if n >= k {
      CycleStaysVisited(parents, candidate, j, k, n - 1);
      var i :| 0 <= i < k && Up(parents, candidate, i) == Up(parents, candidate, n - 1);
      assert Up(parents, candidate, if i + 1 < k then i + 1 else j) == Up(parents, candidate, n);
    }
  }

  lemma HasMember(pids: set<int>)
    ensures pids == {} || exists pid :: pid in pids
  {
    if forall pid :: pid !in pids {
      assert pids == {};
    }
  }

  // `_listener_owner_pids_in_process_tree`: its final filter.
  method OwnersInTree(owners: set<int>, root: int, parents: map<int, int>) returns (r: set<int>)
    ensures forall pid :: pid in r <==> pid in owners && SameOrDescendant(parents, pid, root)
  {
    r := {};
    var rest := owners;
    while rest != {}
      invariant rest <= owners
      invariant forall pid :: pid in r <==> pid in owners - rest && SameOrDescendant(parents, pid, root)
    {
      HasMember(rest);
      var pid :| pid in rest;
      var inTree := PidIsSameOrDescendant(pid, root, parents);
      if inTree {
        r := r + {pid};
      }
      rest := rest - {pid};
    }
  }

  lemma {:induction false} UpAdds(parents: map<int, int>, pid: int, m: nat, n: nat)
    ensures Up(parents, Up(parents, pid, m), n) == Up(parents, pid, m + n)
  {
    if n > 0 {
      UpAdds(parents, pid, m, n - 1);
    }
  }

  // A process is in the tree of another exactly when it is that process or its parent is in the tree.
  lemma TreeByParent(parents: map<int, int>, pid: int, root: int)
    ensures SameOrDescendant(parents, pid, root)
       <==> pid > 0 && (pid == root || SameOrDescendant(parents, Parent(parents, pid), root))
  {
    var parent := Parent(parents, pid);
    assert Up(parents, pid, 1) == parent by {
      assert Up(parents, pid, 0) == pid;
    }
    if n: nat :| Leads(parents, pid, root, n) {
      assert Up(parents, pid, 0) > 0;
      if n > 0 {
        forall i | 0 <= i < n ensures Up(parents, parent, i) == Up(parents, pid, i + 1) {
          UpAdds(parents, pid, 1, i);
        }
        assert Leads(parents, parent, root, n - 1);
      }
    }
    if pid > 0 && pid == root {
      assert Leads(parents, pid, root, 0);
    }
    if n: nat :| pid > 0 && Leads(parents, parent, root, n) {
      forall i | 1 <= i <= n + 1 ensures Up(parents, pid, i) == Up(parents, parent, i - 1) {
        UpAdds(parents, pid, 1, i - 1);
      }
      assert Leads(parents, pid, root, n + 1);
    }
  }

  // Trees nest: a descendant of a descendant is a descendant.
  lemma TreesNest(parents: map<int, int>, pid: int, middle: int, root: int)
    requires SameOrDescendant(parents, pid, middle) && SameOrDescendant(parents, middle, root)
    ensures SameOrDescendant(parents, pid, root)
  {
    var m: nat :| Leads(parents, pid, middle, m);
    var n: nat :| Leads(parents, middle, root, n);
    forall i | m <= i <= m + n ensures Up(parents, pid, i) == Up(parents, middle, i - m) {
      UpAdds(parents, pid, m, i - m);
    }
    assert Leads(parents, pid, root, m + n);
  }
}
