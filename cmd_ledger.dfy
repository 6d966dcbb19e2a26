/**
 * The per-SQ command-tracking ledger (add_cmd_track_node and empty_cmd_track_list of
 * dnvme_cmds.c). Each outstanding command keeps a copy of its PRP descriptor; emptying
 * the ledger releases the user pages and PRP-list pages of every command and leaves it
 * empty.
 */
module CmdLedger {
  import opened Base
  import opened Endian
  import opened PrpPool
  import opened Descriptors
  import opened Metrics
  import opened Scatter
  import opened PrpBuilder

  // ---------------------------------------------------------------------------------
  // What a ledger holds
  // ---------------------------------------------------------------------------------

  /** The PRP-list pages a descriptor owns: its first npages list pages, for a list type. */
  function NodeListPages(p: Prps): set<nat>
  {
    if p.prpType.IsList() && p.npages <= |p.virPrpList| then ListPages(p.virPrpList, p.npages) else {}
  }

  /** The number of list pages free_prp_pool returns for the descriptor. */
  function NodeListCount(p: Prps): nat
  {
    if p.prpType.IsList() then p.npages else 0
  }

  /** A descriptor whose resources can be released: its mapping is well formed and its chain valid. */
  ghost predicate NodeReady(mem: seq<seq<Le64>>, addr: seq<u64>, live: set<nat>, p: Prps)
  {
    p.dmaMappedPgs <= |p.sg| &&
    (p.prpType.IsList() ==> ChainValid(mem, addr, live, p, p.npages))
  }

  ghost predicate AllReady(mem: seq<seq<Le64>>, addr: seq<u64>, live: set<nat>, l: seq<CmdTrack>)
  {
    forall i :: 0 <= i < |l| ==> NodeReady(mem, addr, live, l[i].prpNonpersist)
  }

  function LedgerListPages(l: seq<CmdTrack>): set<nat>
  {
    if l == [] then {} else NodeListPages(l[0].prpNonpersist) + LedgerListPages(l[1..])
  }

  function LedgerListCount(l: seq<CmdTrack>): nat
  {
    if l == [] then 0 else NodeListCount(l[0].prpNonpersist) + LedgerListCount(l[1..])
  }

  /** Every command's mapped-page count is within its scatter list. */
  ghost predicate AllMapped(l: seq<CmdTrack>)
  {
    forall i :: 0 <= i < |l| ==> l[i].prpNonpersist.dmaMappedPgs <= |l[i].prpNonpersist.sg|
  }

  function LedgerUserPages(l: seq<CmdTrack>): multiset<nat>
    requires AllMapped(l)
  {
    if l == [] then multiset{} else HeldPages(l[0].prpNonpersist) + LedgerUserPages(l[1..])
  }

  /**
   * The ledger owns its resources: every command's descriptor is ready, no two commands
   * share a PRP-list page, and the driver holds at least the user pages all commands map.
   */
  ghost predicate LedgerOwned(mem: seq<seq<Le64>>, addr: seq<u64>, live: set<nat>, pinned: multiset<nat>,
                              l: seq<CmdTrack>)
  {
    AllReady(mem, addr, live, l) &&
    (forall i, j :: 0 <= i < j < |l| ==> NodeListPages(l[i].prpNonpersist) !! NodeListPages(l[j].prpNonpersist)) &&
    LedgerUserPages(l) <= pinned
  }

  // ---------------------------------------------------------------------------------
  // Operations
  // ---------------------------------------------------------------------------------

  /**
   * add_cmd_track_node: records a command at the tail of the SQ's ledger. allocOk is
   * whether kmalloc of the node succeeds; when it fails the ledger is unchanged.
   */
  method AddCmdTrackNode(sq: MetricsSq, persistQId: u16, cmdType: NvmeCmds, prps: Prps, opcode: u8,
                         uniqueCnt: u16, allocOk: bool) returns (err: int)
    modifies sq`cmdTrack
    ensures allocOk ==>
      err == SUCCESS && sq.cmdTrack == old(sq.cmdTrack) + [CmdTrack(uniqueCnt, persistQId, opcode, cmdType, prps)]
    ensures !allocOk ==> err == -ENOMEM && sq.cmdTrack == old(sq.cmdTrack)
  {
    if !allocOk {
      return -ENOMEM;
    }
    var node := CmdTrack(uniqueCnt, persistQId, opcode, cmdType, prps);
    sq.cmdTrack := sq.cmdTrack + [node];
    err := SUCCESS;
  }

  /**
   * The body of the loop of empty_cmd_track_list for one command: unmap its user pages,
   * then return its PRP-list pages to the pool.
   */
  method ReleaseCommand(pool: PrpPagePool, user: UserPages, p: Prps)
    requires pool.Valid() && NodeReady(pool.mem, pool.addr, pool.live, p) && HeldPages(p) <= user.pinned
    modifies pool, user
    ensures pool.Valid() && pool.mem == old(pool.mem)
    ensures pool.live == old(pool.live) - NodeListPages(p)
    ensures |pool.free| == old(|pool.free|) + NodeListCount(p)
    ensures user.pinned + HeldPages(p) == old(user.pinned)
  {
    UnmapUserPgToDma(user, p);
    var _ := FreePrpPool(pool, p, p.npages);
  }

  /**
   * empty_cmd_track_list: removes the commands oldest first. For each one it unmaps the
   * user pages and frees the PRP-list pages of its descriptor. Afterwards the ledger is
   * empty; the driver holds exactly the user pages the commands mapped fewer, and the
   * pool has exactly their list pages back.
   */
  method EmptyCmdTrackList(pool: PrpPagePool, user: UserPages, sq: MetricsSq)
    requires pool.Valid() && LedgerOwned(pool.mem, pool.addr, pool.live, user.pinned, sq.cmdTrack)
    modifies pool, user, sq`cmdTrack
    ensures sq.cmdTrack == []
    ensures pool.Valid() && pool.mem == old(pool.mem)
    ensures pool.live == old(pool.live) - LedgerListPages(old(sq.cmdTrack))
    ensures |pool.free| == old(|pool.free|) + LedgerListCount(old(sq.cmdTrack))
    ensures user.pinned + LedgerUserPages(old(sq.cmdTrack)) == old(user.pinned)
  {
    ghost var l0 := sq.cmdTrack;
    ghost var k := 0;
    assert l0[k..] == l0 && l0[..k] == [];
    while |sq.cmdTrack| > 0
      invariant 0 <= k <= |l0| && sq.cmdTrack == l0[k..]
      invariant pool.Valid() && pool.mem == old(pool.mem)
      invariant Drained(pool.mem, pool.addr, l0, k, old(pool.live), old(|pool.free|), old(user.pinned),
                        pool.live, |pool.free|, user.pinned)
      decreases |sq.cmdTrack|
    {
      var node := sq.cmdTrack[0];
      ghost var live0, free0, pinned0 := pool.live, |pool.free|, user.pinned;
      DrainReady(pool.mem, pool.addr, l0, k, old(pool.live), old(|pool.free|), old(user.pinned),
                 pool.live, |pool.free|, user.pinned);
      ReleaseCommand(pool, user, node.prpNonpersist);
      DrainStep(pool.mem, pool.addr, l0, k, old(pool.live), old(|pool.free|), old(user.pinned),
                live0, free0, pinned0, pool.live, |pool.free|, user.pinned);
      sq.cmdTrack := sq.cmdTrack[1..];
      k := k + 1;
    }
    DrainEnd(pool.mem, pool.addr, l0, k, old(pool.live), old(|pool.free|), old(user.pinned),
             pool.live, |pool.free|, user.pinned);
  }


  /**
   * Where the loop of EmptyCmdTrackList stands after the first k commands of l0: the
   * rest still owns its resources, and the pool and the pinned pages differ from their
   * starting values by exactly what those k commands held.
   */
  ghost predicate Drained(mem: seq<seq<Le64>>, addr: seq<u64>, l0: seq<CmdTrack>, k: nat,
                          oldLive: set<nat>, oldFree: nat, oldPinned: multiset<nat>,
                          live: set<nat>, free: nat, pinned: multiset<nat>)
    requires k <= |l0|
  {
    LedgerOwned(mem, addr, live, pinned, l0[k..]) &&
    AllMapped(l0) &&
    live + LedgerListPages(l0[..k]) == oldLive && LedgerListPages(l0[..k]) !! live &&
    free == oldFree + LedgerListCount(l0[..k]) &&
    pinned + LedgerUserPages(l0[..k]) == oldPinned
  }

  /** The next command can be released: its descriptor is ready and the driver holds its pages. */
  lemma DrainReady(mem: seq<seq<Le64>>, addr: seq<u64>, l0: seq<CmdTrack>, k: nat,
                   oldLive: set<nat>, oldFree: nat, oldPinned: multiset<nat>,
                   live: set<nat>, free: nat, pinned: multiset<nat>)
    requires k < |l0| && Drained(mem, addr, l0, k, oldLive, oldFree, oldPinned, live, free, pinned)
    ensures NodeReady(mem, addr, live, l0[k].prpNonpersist)
    ensures HeldPages(l0[k].prpNonpersist) <= pinned
  {
    assert l0[k..][0] == l0[k];
  }

  /** One command released: the loop state for k + 1. */
  lemma DrainStep(mem: seq<seq<Le64>>, addr: seq<u64>, l0: seq<CmdTrack>, k: nat,
                  oldLive: set<nat>, oldFree: nat, oldPinned: multiset<nat>,
                  live: set<nat>, free: nat, pinned: multiset<nat>,
                  live': set<nat>, free': nat, pinned': multiset<nat>)
    requires k < |l0| && Drained(mem, addr, l0, k, oldLive, oldFree, oldPinned, live, free, pinned)
    requires var p := l0[k].prpNonpersist;
      pinned' + HeldPages(p) == pinned && live' == live - NodeListPages(p) && free' == free + NodeListCount(p)
    ensures Drained(mem, addr, l0, k + 1, oldLive, oldFree, oldPinned, live', free', pinned')
  {
    var p := l0[k].prpNonpersist;
    var gone := NodeListPages(p);
    assert l0[k..][0] == l0[k] && l0[k..][1..] == l0[k + 1..];
    DrainReady(mem, addr, l0, k, oldLive, oldFree, oldPinned, live, free, pinned);
    assert gone <= live by {
      if p.prpType.IsList() {
        forall x | x in gone
          ensures x in live
        {
          var i :| 0 <= i < p.npages && p.virPrpList[i] == x;
        }
      }
    }
    LedgerPop(mem, addr, live, pinned, pinned', l0[k..]);
    PrefixStep(l0, k);
  }

  lemma DrainEnd(mem: seq<seq<Le64>>, addr: seq<u64>, l0: seq<CmdTrack>, k: nat,
                 oldLive: set<nat>, oldFree: nat, oldPinned: multiset<nat>,
                 live: set<nat>, free: nat, pinned: multiset<nat>)
    requires k == |l0| && Drained(mem, addr, l0, k, oldLive, oldFree, oldPinned, live, free, pinned)
    ensures live == oldLive - LedgerListPages(l0)
    ensures free == oldFree + LedgerListCount(l0)
    ensures pinned + LedgerUserPages(l0) == oldPinned
  {
    assert l0[..k] == l0;
  }

  // ---------------------------------------------------------------------------------
  // Properties
  // ---------------------------------------------------------------------------------

  lemma LedgerUnfold(l: seq<CmdTrack>)
    requires |l| > 0
    ensures LedgerListPages(l) == NodeListPages(l[0].prpNonpersist) + LedgerListPages(l[1..])
    ensures LedgerListCount(l) == NodeListCount(l[0].prpNonpersist) + LedgerListCount(l[1..])
  {
  }

  /** Removing the oldest command leaves a ledger that owns the rest, over the state its release leaves. */
  lemma LedgerPop(mem: seq<seq<Le64>>, addr: seq<u64>, live: set<nat>, pinned: multiset<nat>,
                  pinned': multiset<nat>, l: seq<CmdTrack>)
    requires LedgerOwned(mem, addr, live, pinned, l) && |l| > 0
    requires pinned' + HeldPages(l[0].prpNonpersist) == pinned
    ensures LedgerOwned(mem, addr, live - NodeListPages(l[0].prpNonpersist), pinned', l[1..])
  {
    var gone := NodeListPages(l[0].prpNonpersist);
    var rest := l[1..];
    forall i | 0 <= i < |rest|
      ensures NodeReady(mem, addr, live - gone, rest[i].prpNonpersist)
    {
      var p := rest[i].prpNonpersist;
      assert rest[i] == l[i + 1];
      assert NodeReady(mem, addr, live, p);
      if p.prpType.IsList() {
        assert NodeListPages(p) == ListPages(p.virPrpList, p.npages);
        ChainValidFrame(mem, addr, live, gone, p, p.npages);
      }
    }
    forall i, j | 0 <= i < j < |rest|
      ensures NodeListPages(rest[i].prpNonpersist) !! NodeListPages(rest[j].prpNonpersist)
    {
      assert rest[i] == l[i + 1] && rest[j] == l[j + 1];
    }
    var h := HeldPages(l[0].prpNonpersist);
    var r := LedgerUserPages(rest);
    assert h + r <= pinned' + h;
    SubCancel(r, pinned', h);
  }

  lemma SubCancel(a: multiset<nat>, b: multiset<nat>, m: multiset<nat>)
    requires m + a <= b + m
    ensures a <= b
  {
    forall x
      ensures a[x] <= b[x]
    {
      assert (m + a)[x] <= (b + m)[x];
    }
  }

  lemma {:induction false} ListPagesAppend(a: seq<CmdTrack>, b: seq<CmdTrack>)
    ensures LedgerListPages(a + b) == LedgerListPages(a) + LedgerListPages(b)
    ensures LedgerListCount(a + b) == LedgerListCount(a) + LedgerListCount(b)
    decreases |a|
  {
    if a == [] {
      assert a + b == b;
    } else {
      assert (a + b)[0] == a[0] && (a + b)[1..] == a[1..] + b;
      ListPagesAppend(a[1..], b);
    }
  }

  lemma {:induction false} UserPagesAppend(a: seq<CmdTrack>, b: seq<CmdTrack>)
    requires forall i :: 0 <= i < |a| ==> a[i].prpNonpersist.dmaMappedPgs <= |a[i].prpNonpersist.sg|
    requires forall i :: 0 <= i < |b| ==> b[i].prpNonpersist.dmaMappedPgs <= |b[i].prpNonpersist.sg|
    ensures LedgerUserPages(a + b) == LedgerUserPages(a) + LedgerUserPages(b)
    decreases |a|
  {
    if a == [] {
      assert a + b == b;
    } else {
      assert (a + b)[0] == a[0] && (a + b)[1..] == a[1..] + b;
      UserPagesAppend(a[1..], b);
      assert LedgerUserPages(a + b) == HeldPages(a[0].prpNonpersist) + LedgerUserPages(a[1..] + b);
    }
  }

  /** The running totals of the loop of EmptyCmdTrackList after one more command. */
  lemma PrefixStep(l0: seq<CmdTrack>, k: nat)
    requires k < |l0|
    requires forall i :: 0 <= i < |l0| ==> l0[i].prpNonpersist.dmaMappedPgs <= |l0[i].prpNonpersist.sg|
    ensures l0[..k + 1] == l0[..k] + [l0[k]]
    ensures LedgerListPages(l0[..k + 1]) == LedgerListPages(l0[..k]) + NodeListPages(l0[k].prpNonpersist)
    ensures LedgerListCount(l0[..k + 1]) == LedgerListCount(l0[..k]) + NodeListCount(l0[k].prpNonpersist)
    ensures LedgerUserPages(l0[..k + 1]) == LedgerUserPages(l0[..k]) + HeldPages(l0[k].prpNonpersist)
  {
    assert l0[..k + 1] == l0[..k] + [l0[k]];
    ListPagesAppend(l0[..k], [l0[k]]);
    UserPagesAppend(l0[..k], [l0[k]]);
    SingleTotals(l0[k]);
  }

  /** The totals of a one-command ledger are that command's. */
  lemma SingleTotals(c: CmdTrack)
    requires c.prpNonpersist.dmaMappedPgs <= |c.prpNonpersist.sg|
    ensures LedgerListPages([c]) == NodeListPages(c.prpNonpersist)
    ensures LedgerListCount([c]) == NodeListCount(c.prpNonpersist)
    ensures LedgerUserPages([c]) == HeldPages(c.prpNonpersist)
  {
    assert [c][1..] == [];
  }

  /**
   * Recording a command whose resources are owned and shared with no recorded command
   * keeps the ledger owning its resources, so a later EmptyCmdTrackList releases them too.
   */
  lemma LedgerPush(mem: seq<seq<Le64>>, addr: seq<u64>, live: set<nat>, pinned: multiset<nat>,
                   l: seq<CmdTrack>, c: CmdTrack)
    requires LedgerOwned(mem, addr, live, pinned, l)
    requires NodeReady(mem, addr, live, c.prpNonpersist)
    requires NodeListPages(c.prpNonpersist) !! LedgerListPages(l)
    requires LedgerUserPages(l) + HeldPages(c.prpNonpersist) <= pinned
    ensures LedgerOwned(mem, addr, live, pinned, l + [c])
    ensures LedgerListPages(l + [c]) == LedgerListPages(l) + NodeListPages(c.prpNonpersist)
    ensures LedgerUserPages(l + [c]) == LedgerUserPages(l) + HeldPages(c.prpNonpersist)
  {
    ListPagesAppend(l, [c]);
    UserPagesAppend(l, [c]);
    SingleTotals(c);
    PushReady(mem, addr, live, l, c);
    PushDisjoint(l, c);
  }

  lemma PushReady(mem: seq<seq<Le64>>, addr: seq<u64>, live: set<nat>, l: seq<CmdTrack>, c: CmdTrack)
    requires AllReady(mem, addr, live, l) && NodeReady(mem, addr, live, c.prpNonpersist)
    ensures AllReady(mem, addr, live, l + [c])
  {
    var l' := l + [c];
    forall i | 0 <= i < |l'|
      ensures NodeReady(mem, addr, live, l'[i].prpNonpersist)
    {
      if i < |l| {
        assert l'[i] == l[i];
      } else {
        assert l'[i] == c;
      }
    }
  }

  lemma PushDisjoint(l: seq<CmdTrack>, c: CmdTrack)
    requires forall i, j :: 0 <= i < j < |l| ==> NodeListPages(l[i].prpNonpersist) !! NodeListPages(l[j].prpNonpersist)
    requires NodeListPages(c.prpNonpersist) !! LedgerListPages(l)
    ensures var l' := l + [c];
      forall i, j :: 0 <= i < j < |l'| ==> NodeListPages(l'[i].prpNonpersist) !! NodeListPages(l'[j].prpNonpersist)
  {
    var l' := l + [c];
    forall i, j | 0 <= i < j < |l'|
      ensures NodeListPages(l'[i].prpNonpersist) !! NodeListPages(l'[j].prpNonpersist)
    {
      assert l'[i] == l[i];
      if j == |l| {
        assert l'[j] == c;
        InLedger(l, i);
      } else {
        assert l'[j] == l[j];
      }
    }
  }

  lemma {:induction false} InLedger(l: seq<CmdTrack>, i: nat)
    requires i < |l|
    ensures NodeListPages(l[i].prpNonpersist) <= LedgerListPages(l)
    decreases i
  {
    if i > 0 {
      InLedger(l[1..], i - 1);
      assert l[1..][i - 1] == l[i];
    }
  }
}
