/**
 Summing a value over a process and all its descendants (src/rss.rs): an explicit-stack search over
 a snapshot that may hold repeated pids and parent cycles.
 */
module TreeSum {
  import opened Prelude

  type Pid = int

  const U64_MAX: nat := 0xFFFF_FFFF_FFFF_FFFF

  type U64 = x: int | 0 <= x <= 0xFFFF_FFFF_FFFF_FFFF

  datatype Stat = Stat(pid: Pid, ppid: Pid, value: U64)

  // ---------------------------------------------------------------- specification

  ghost predicate Edge(all: seq<Stat>, parent: Pid, child: Pid) {
    exists i :: 0 <= i < |all| && all[i] == Stat(child, parent, all[i].value)
  }

  ghost predicate IsPath(all: seq<Stat>, path: seq<Pid>) {
    path != [] && forall i :: 0 <= i < |path| - 1 ==> Edge(all, path[i], path[i + 1])
  }

  /** `pid` is `root` or a descendant of it. */
  ghost predicate Reachable(all: seq<Stat>, root: Pid, pid: Pid) {
    exists path :: IsPath(all, path) && path[0] == root && path[|path| - 1] == pid
  }

  predicate Present(all: seq<Stat>, pid: Pid) {
    exists i :: 0 <= i < |all| && all[i].pid == pid
  }

  /** `root` and its descendants, as a set. */
  ghost function Tree(all: seq<Stat>, root: Pid): set<Pid> {
    set i | 0 <= i < |all| && Reachable(all, root, all[i].pid) :: all[i].pid
  }

  /** With the root in the snapshot, the tree is everything reachable: no descendant is outside it. */
  lemma TreeIsReachable(all: seq<Stat>, root: Pid, pid: Pid)
    requires Present(all, root)
    ensures pid in Tree(all, root) <==> Reachable(all, root, pid)
  {
    if Reachable(all, root, pid) {
      var path :| IsPath(all, path) && path[0] == root && path[|path| - 1] == pid;
      if |path| > 1 {
        assert Edge(all, path[|path| - 2], path[|path| - 2 + 1]);
      }
      assert Present(all, pid);
    }
  }

  /** The value of a pid: its last entry in the snapshot, zero without one. */
  function ValueOf(all: seq<Stat>, pid: Pid): U64 {
    if all == [] then 0
    else
      var n := |all| - 1;
      if all[n].pid == pid then all[n].value else ValueOf(all[..n], pid)
  }

  /** The sum over a set of pids, each counted once with its last entry. */
  function SumOver(all: seq<Stat>, pids: set<Pid>): nat {
    if all == [] then 0
    else
      var n := |all| - 1;
      if all[n].pid in pids then all[n].value + SumOver(all[..n], pids - {all[n].pid})
      else SumOver(all[..n], pids)
  }

  lemma {:induction false} SumAdd(all: seq<Stat>, pids: set<Pid>, x: Pid)
    requires x !in pids
    ensures SumOver(all, pids + {x}) == SumOver(all, pids) + ValueOf(all, x)
  {
    if all != [] {
      var n := |all| - 1;
      var p := all[n].pid;
      if p == x {
        assert pids + {x} - {p} == pids;
      } else if p in pids {
        assert pids + {x} - {p} == (pids - {p}) + {x};
        SumAdd(all[..n], pids - {p}, x);
      } else {
        SumAdd(all[..n], pids, x);
      }
    }
  }

  lemma {:induction false} SumOfNone(all: seq<Stat>)
    ensures SumOver(all, {}) == 0
  {
    if all != [] {
      SumOfNone(all[..|all| - 1]);
    }
  }

  // ---------------------------------------------------------------- the search

  ghost predicate MapsAgree(all: seq<Stat>, values: map<Pid, U64>, children: map<Pid, seq<Pid>>) {
    && (forall p :: p in values <==> Present(all, p))
    && (forall p :: p in values ==> values[p] == ValueOf(all, p))
    && (forall p, c :: (p in children && c in children[p]) <==> Edge(all, p, c))
  }

  lemma MapsStep(all: seq<Stat>, x: Stat, values: map<Pid, U64>, children: map<Pid, seq<Pid>>)
    requires MapsAgree(all, values, children)
    ensures MapsAgree(all + [x], values[x.pid := x.value],
                      children[x.ppid := (if x.ppid in children then children[x.ppid] else []) + [x.pid]])
  {
    var more := all + [x];
    assert more[..|all|] == all;
    forall p ensures Present(more, p) <==> Present(all, p) || p == x.pid {
      if Present(all, p) {
        var i :| 0 <= i < |all| && all[i].pid == p;
        assert more[i].pid == p;
      }
      assert more[|all|].pid == x.pid;
    }
    forall p, c ensures Edge(more, p, c) <==> Edge(all, p, c) || (p == x.ppid && c == x.pid) {
      if Edge(all, p, c) {
        var i :| 0 <= i < |all| && all[i] == Stat(c, p, all[i].value);
        assert more[i] == Stat(c, p, more[i].value);
      }
      assert more[|all|] == Stat(x.pid, x.ppid, more[|all|].value);
    }
  }

  /** The entries whose `stat` could be read. */
  function Readable(all: seq<Option<Stat>>): seq<Stat> {
    if all == [] then []
    else
      var n := |all| - 1;
      Readable(all[..n]) + (if all[n].Some? then [all[n].value] else [])
  }

  lemma PathExtended(all: seq<Stat>, root: Pid, p: Pid, c: Pid)
    requires Reachable(all, root, p) && Edge(all, p, c)
    ensures Reachable(all, root, c)
  {
    var path :| IsPath(all, path) && path[0] == root && path[|path| - 1] == p;
    var longer := path + [c];
    assert IsPath(all, longer) && longer[0] == root && longer[|longer| - 1] == c;
  }

  /** A set that holds the root and is closed under children holds everything reachable. */
  lemma {:induction false} ClosedHoldsPath(all: seq<Stat>, seen: set<Pid>, path: seq<Pid>)
    requires IsPath(all, path) && path[0] in seen
    requires forall p, c :: p in seen && Edge(all, p, c) ==> c in seen
    ensures path[|path| - 1] in seen
    decreases |path|
  {
    if |path| > 1 {
      assert Edge(all, path[0], path[1]);
      assert forall i :: 0 <= i < |path| - 2 ==> Edge(all, path[1..][i], path[1..][i + 1]) by {
        forall i | 0 <= i < |path| - 2 ensures Edge(all, path[1..][i], path[1..][i + 1]) {
          assert Edge(all, path[i + 1], path[i + 2]);
        }
      }
      ClosedHoldsPath(all, seen, path[1..]);
    }
  }

  /**
   `tree_sum`: nothing when the process table is unreadable or the root is not in it, and otherwise
   the sum, saturated at 64 bits, over exactly the pids reachable from the root, each counted once.
   */
  method Sum(table: Option<seq<Option<Stat>>>, root: Pid) returns (r: Option<U64>)
    ensures r.Some? <==> table.Some? && Present(Readable(table.value), root)
    ensures r.Some? ==> var all := Readable(table.value);
              r.value == Min(SumOver(all, Tree(all, root)), U64_MAX)
  {
    if table.None? {
      return None;
    }
    var entries := table.value;
    var values: map<Pid, U64>, children: map<Pid, seq<Pid>> := map[], map[];
    for i := 0 to |entries|
      invariant MapsAgree(Readable(entries[..i]), values, children)
    {
      assert entries[..i + 1][..i] == entries[..i];
      match entries[i]
      case None =>
        assert Readable(entries[..i + 1]) == Readable(entries[..i]);
      case Some(stat) =>
        MapsStep(Readable(entries[..i]), stat, values, children);
        values := values[stat.pid := stat.value];
        children := children[stat.ppid := (if stat.ppid in children then children[stat.ppid] else []) + [stat.pid]];
    }
    assert entries[..|entries|] == entries;
    ghost var all := Readable(entries);
    if root !in values {
      return None;
    }
    var total: U64 := 0;
    var stack: seq<Pid> := [root];
    assert Reachable(all, root, root) by {
      assert IsPath(all, [root]) && [root][0] == root;
    }
    var seen: set<Pid> := {};
    SumOfNone(all);
    while stack != []
      invariant seen <= values.Keys && forall p :: p in stack ==> p in values
      invariant forall p :: p in stack || p in seen ==> Reachable(all, root, p)
      invariant root in seen || root in stack
      invariant forall p, c :: p in seen && Edge(all, p, c) ==> c in seen || c in stack
      invariant total == Min(SumOver(all, seen), U64_MAX)
      decreases values.Keys - seen, |stack|
    {
      var pid := stack[|stack| - 1];
      ghost var was := stack;
      assert was == was[..|was| - 1] + [pid];
      stack := stack[..|stack| - 1];
      if pid !in seen {
        SumAdd(all, seen, pid);
        seen := seen + {pid};
        total := Min(total + (if pid in values then values[pid] else 0), U64_MAX);
        if pid in children {
          ghost var kids := children[pid];
          forall c | c in kids ensures Reachable(all, root, c) && c in values {
            assert Edge(all, pid, c);
            PathExtended(all, root, pid, c);
            assert Present(all, c);
          }
          stack := stack + children[pid];
        }
      }
    }
    forall p ensures p in seen <==> p in Tree(all, root) {
      TreeIsReachable(all, root, p);
      if Reachable(all, root, p) {
        var path :| IsPath(all, path) && path[0] == root && path[|path| - 1] == p;
        ClosedHoldsPath(all, seen, path);
      }
    }
    assert seen == Tree(all, root);
    return Some(total);
  }
}
