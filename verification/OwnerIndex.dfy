/** The ownership index in Redis: per chunk a sorted set of nodes by registration time, changed by
    the register script, by `ZREM` and by expiry, each atomic; and a node's synchronisation with it. */
module OwnerIndex {
  import opened Basics
  import opened Bytes
  import opened KeyOrder

  type Node = seq<byte>

  const MAX_CHUNK_OWNERS: nat := 3

  /** A member of the sorted set; scores are epoch seconds. */
  datatype Owner = Owner(score: u64, node: Node)

  /** A sorted set: one score per member. */
  type Owners = map<Node, u64>

  /** Redis orders members by score, those of one score by their bytes. */
  function RankKey(o: Owner): seq<byte> {
    WordCapacities();
    ToBE(o.score, 8) + o.node
  }

  lemma RankOrder(a: Owner, b: Owner)
    ensures LexLess(RankKey(a), RankKey(b)) <==> a.score < b.score || (a.score == b.score && LexLess(a.node, b.node))
  {
    WordCapacities();
    LexConcat(ToBE(a.score, 8), ToBE(b.score, 8), a.node, b.node);
    LexOfBE(a.score, b.score, 8);
  }

  lemma RankKeysInjective()
    ensures Injective(RankKey)
  {
    forall a, b | RankKey(a) == RankKey(b) ensures a == b {
      RankOrder(a, b);
      RankOrder(b, a);
      LexIrreflexive(RankKey(a));
      LexTotal(a.node, b.node);
    }
  }

  function Entries(z: Owners): set<Owner> {
    set n | n in z :: Owner(z[n], n)
  }

  /** The order of the sorted set: `a` below `b`. */
  predicate Below(z: Owners, a: Node, b: Node) {
    a in z && b in z && (z[a] < z[b] || (z[a] == z[b] && LexLess(a, b)))
  }

  /** The members from the lowest rank to the highest. */
  ghost predicate IsRanking(z: Owners, s: seq<Node>) {
    (forall m :: m in s <==> m in z) && (forall i, j :: 0 <= i < j < |s| ==> Below(z, s[i], s[j]))
  }

  ghost function Ranking(z: Owners): (s: seq<Node>)
    ensures IsRanking(z, s)
  {
    RankKeysInjective();
    var r := Sorted(Entries(z), RankKey);
    RankingFromSorted(z, r);
    NodesOf(r)
  }

  function NodesOf(r: seq<Owner>): seq<Node> {
    seq(|r|, i requires 0 <= i < |r| => r[i].node)
  }

  lemma RankingFromSorted(z: Owners, r: seq<Owner>)
    requires Lists(r, Entries(z), RankKey)
    ensures IsRanking(z, NodesOf(r))
  {
    var s := NodesOf(r);
    forall i, j | 0 <= i < j < |s| ensures Below(z, s[i], s[j]) {
      assert r[i] in r && r[j] in r;
      RankOrder(r[i], r[j]);
    }
    forall m ensures m in s <==> m in z {
      if m in z {
        assert Owner(z[m], m) in r;
        var i :| 0 <= i < |r| && r[i] == Owner(z[m], m);
        assert s[i] == m;
      }
      if m in s {
        var i :| 0 <= i < |s| && s[i] == m;
        assert r[i] in r;
      }
    }
  }

  lemma BelowStrict(z: Owners, a: Node, b: Node)
    requires Below(z, a, b)
    ensures a != b && !Below(z, b, a)
  {
    LexIrreflexive(a);
    if LexLess(a, b) && LexLess(b, a) { LexTransitive(a, b, a); }
  }

  lemma {:induction false} DistinctCount(s: seq<Node>)
    requires forall i, j :: 0 <= i < j < |s| ==> s[i] != s[j]
    ensures |ToSet(s)| == |s|
  {
    if s != [] {
      DistinctCount(s[1..]);
      assert ToSet(s) == {s[0]} + ToSet(s[1..]);
    }
  }

  lemma RankingSlice(z: Owners, s: seq<Node>, lo: nat, hi: nat)
    requires IsRanking(z, s) && lo <= hi <= |s|
    ensures |ToSet(s[lo..hi])| == hi - lo
  {
    var t := s[lo..hi];
    forall i, j | 0 <= i < j < |t| ensures t[i] != t[j] {
      BelowStrict(z, s[lo + i], s[lo + j]);
    }
    DistinctCount(t);
  }

  lemma RankingCount(z: Owners, s: seq<Node>)
    requires IsRanking(z, s)
    ensures |s| == |z|
  {
    RankingSlice(z, s, 0, |s|);
    assert s[0..|s|] == s && ToSet(s) == z.Keys;
    assert |z.Keys| == |z|;
  }

  // ---- The commands of the script ------------------------------------------------------------------------

  /** `ZREMRANGEBYSCORE key -inf cutoff`. */
  function RemoveUpTo(z: Owners, cutoff: int): Owners {
    map n | n in z && z[n] > cutoff :: z[n]
  }

  /** `ZREMRANGEBYRANK key 0 (n - 1)`: the `n` lowest ranks go. */
  ghost function RemoveLowest(z: Owners, n: nat): Owners {
    z - ToSet(Ranking(z)[..MinOf(n, |Ranking(z)|)])
  }

  datatype Registered = Registered(owners: Owners, result: int)

  /** The register script. */
  ghost function Register(z: Owners, me: Node, now: u64, ttl: nat, maxOwners: nat): Registered {
    var kept := Trim(RemoveUpTo(z, now - ttl)[me := now], maxOwners);
    Registered(kept, if me in kept then 1 else 0)
  }

  ghost function Trim(z: Owners, maxOwners: nat): Owners {
    if |z| > maxOwners then RemoveLowest(z, |z| - maxOwners) else z
  }

  /** A score and a member rank above another score and member. */
  predicate Outranks(score: u64, n: Node, score': u64, n': Node) {
    score' < score || (score == score' && LexLess(n', n))
  }

  /** Who of `z` ranks above node `me` at time `now`. */
  function Above(z: Owners, me: Node, now: u64): set<Node> {
    set n | n in z && n != me && Outranks(z[n], n, now, me)
  }

  /** Who of `z` has been heard of within the time to live, and ranks above node `me` at time `now`. */
  function LiveAbove(z: Owners, me: Node, now: u64, ttl: nat): set<Node> {
    set n | n in z && n != me && z[n] > now - ttl && Outranks(z[n], n, now, me)
  }

  /** A member survives the loss of the `n` lowest iff fewer than the rest are above it. */
  lemma Survivor(z: Owners, s: seq<Node>, n: nat, me: Node)
    requires IsRanking(z, s) && n <= |s| && me in z
    ensures me !in ToSet(s[..n]) <==> |Above(z, me, z[me])| < |s| - n
  {
    var i :| 0 <= i < |s| && s[i] == me;
    AboveIsRest(z, s, i);
    RankingSlice(z, s, i + 1, |s|);
    if i < n {
      assert s[..n][i] == me;
    } else if me in s[..n] {
      var k :| 0 <= k < n && s[k] == me;
      BelowStrict(z, s[k], s[i]);
    }
  }

  lemma AboveIsRest(z: Owners, s: seq<Node>, i: nat)
    requires IsRanking(z, s) && i < |s|
    ensures s[i] in z && Above(z, s[i], z[s[i]]) == ToSet(s[i + 1..|s|])
  {
    assert s[i] in s;
    forall m ensures m in Above(z, s[i], z[s[i]]) <==> m in s[i + 1..|s|] {
      if m in z {
        assert m in s;
        var k :| 0 <= k < |s| && s[k] == m;
        if k < i {
          BelowStrict(z, s[k], s[i]);
        } else if k > i {
          BelowStrict(z, s[i], s[k]);
          assert s[i + 1..|s|][k - i - 1] == m;
        }
        if m in s[i + 1..|s|] && k <= i {
          var l :| i + 1 <= l < |s| && s[l] == m;
          BelowStrict(z, s[k], s[l]);
        }
      }
    }
  }

  lemma RemoveLowestExact(z: Owners, n: nat, m: Node)
    requires n <= |z| && m in z
    ensures |RemoveLowest(z, n)| == |z| - n
    ensures m in RemoveLowest(z, n) <==> |Above(z, m, z[m])| < |z| - n
  {
    var s := Ranking(z);
    RankingCount(z, s);
    Survivor(z, s, n, m);
    RankingSlice(z, s, 0, n);
    assert s[0..n] == s[..n];
    var gone := ToSet(s[..n]);
    assert gone <= z.Keys;
    assert RemoveLowest(z, n).Keys == z.Keys - gone;
    assert |RemoveLowest(z, n)| == |RemoveLowest(z, n).Keys| == |z.Keys| - |gone|;
  }

  lemma TrimFull(z: Owners, me: Node, maxOwners: nat)
    requires me in z && |z| > maxOwners
    ensures |Trim(z, maxOwners)| == maxOwners
    ensures me in Trim(z, maxOwners) <==> |Above(z, me, z[me])| < maxOwners
  {
    var n := |z| - maxOwners;
    RemoveLowestExact(z, n, me);
    assert Trim(z, maxOwners) == RemoveLowest(z, n);
  }

  lemma TrimExact(z: Owners, me: Node, maxOwners: nat)
    requires me in z
    ensures |Trim(z, maxOwners)| <= maxOwners
    ensures me in Trim(z, maxOwners) <==> |Above(z, me, z[me])| < maxOwners
  {
    if |z| > maxOwners {
      TrimFull(z, me, maxOwners);
    } else {
      AllButMe(z, me, z[me]);
      assert Trim(z, maxOwners) == z;
    }
  }

  lemma TrimKeeps(z: Owners, maxOwners: nat)
    ensures forall n :: n in Trim(z, maxOwners) ==> n in z && Trim(z, maxOwners)[n] == z[n]
  {
  }

  /** Registration, exactly: a chunk has at most `maxOwners` owners afterwards; whoever is left besides the
      caller is a live owner with the score it had, and the caller's score is the time; and the script
      returns 1, the caller being left, if and only if fewer than that many live owners rank above it. */
  lemma RegisterExact(z: Owners, me: Node, now: u64, ttl: nat, maxOwners: nat)
    ensures var r := Register(z, me, now, ttl, maxOwners);
            && |r.owners| <= maxOwners
            && (forall n :: n in r.owners && n != me ==> n in z && r.owners[n] == z[n] && z[n] > now - ttl)
            && (me in r.owners ==> r.owners[me] == now)
            && r.result == (if me in r.owners then 1 else 0)
            && (me in r.owners <==> |LiveAbove(z, me, now, ttl)| < maxOwners)
  {
    var added := RemoveUpTo(z, now - ttl)[me := now];
    TrimExact(added, me, maxOwners);
    TrimKeeps(added, maxOwners);
    assert Above(added, me, now) == LiveAbove(z, me, now, ttl);
  }

  lemma AllButMe(z: Owners, me: Node, now: u64)
    requires me in z
    ensures |Above(z, me, now)| < |z|
  {
    SubsetSmaller(Above(z, me, now), z.Keys - {me});
    assert |z.Keys - {me}| == |z.Keys| - 1 == |z| - 1;
  }

  // ---- Runs of the index -----------------------------------------------------------------------------------

  /** What any node may do to a chunk's owners at any time. */
  datatype Command =
    | RegisterNode(me: Node, now: u64, ttl: nat)
    | UnregisterNode(me: Node)
    | ExpireKey

  ghost function Apply(z: Owners, c: Command): Owners {
    match c
    case RegisterNode(me, now, ttl) => Register(z, me, now, ttl, MAX_CHUNK_OWNERS).owners
    case UnregisterNode(me) => z - {me}
    case ExpireKey => map[]
  }

  ghost function ApplyAll(z: Owners, cs: seq<Command>): Owners {
    if cs == [] then z else Apply(ApplyAll(z, cs[..|cs| - 1]), cs[|cs| - 1])
  }

  /** However nodes register and unregister, a chunk never has more than three owners. */
  lemma {:induction false} AtMostThreeOwners(z: Owners, cs: seq<Command>)
    requires |z| <= MAX_CHUNK_OWNERS
    ensures |ApplyAll(z, cs)| <= MAX_CHUNK_OWNERS
  {
    if cs != [] {
      AtMostThreeOwners(z, cs[..|cs| - 1]);
      var before, c := ApplyAll(z, cs[..|cs| - 1]), cs[|cs| - 1];
      match c
      case RegisterNode(me, now, ttl) => RegisterExact(before, me, now, ttl, MAX_CHUNK_OWNERS);
      case UnregisterNode(me) =>
        assert (before - {me}).Keys <= before.Keys;
        SubsetSmaller((before - {me}).Keys, before.Keys);
      case ExpireKey =>
    }
  }

  // ---- sync_chunks -------------------------------------------------------------------------------------------

  /** `ZRANGEBYSCORE key cutoff +inf`: who is shown as an owner. */
  function Live(z: Owners, now: nat, ttl: nat): set<Node> {
    set n | n in z && z[n] >= if ttl <= now then now - ttl else 0
  }

  /** One chunk of `sync_chunks`, which looks up and then registers if it has seen free room: `seen` are
      the owners at the lookup, `z` those at the registration. */
  ghost function Sync(seen: Owners, z: Owners, me: Node, lookedUp: u64, now: u64, ttl: nat): Owners {
    if Registers(seen, me, lookedUp, ttl) then Register(z, me, now, ttl, MAX_CHUNK_OWNERS).owners else z
  }

  predicate Registers(seen: Owners, me: Node, lookedUp: u64, ttl: nat) {
    me !in Live(seen, lookedUp, ttl) && |Live(seen, lookedUp, ttl)| < MAX_CHUNK_OWNERS
  }

  /** The live owners above `other` once `me` has been put in. */
  function AboveAfter(z: Owners, me: Node, now: u64, ttl: nat, other: Node): set<Node>
    requires other in z
  {
    (set n | n in z && n != me && n != other && z[n] > now - ttl && Outranks(z[n], n, z[other], other))
    + (if Outranks(now, me, z[other], other) then {me} else {})
  }

  /** A registration evicts an owner still inside its time to live exactly when the caller and the other
      live owners that rank above it fill the set. */
  lemma RegisterEvictsIff(z: Owners, me: Node, now: u64, ttl: nat, maxOwners: nat, other: Node)
    requires other in z && other != me && z[other] > now - ttl
    ensures other in Register(z, me, now, ttl, maxOwners).owners <==> |AboveAfter(z, me, now, ttl, other)| < maxOwners
    ensures other in Register(z, me, now, ttl, maxOwners).owners ==>
              Register(z, me, now, ttl, maxOwners).owners[other] == z[other]
  {
    var added := RemoveUpTo(z, now - ttl)[me := now];
    assert other in added && added[other] == z[other];
    TrimExact(added, other, maxOwners);
    TrimKeeps(added, maxOwners);
    AboveOnceIn(z, me, now, ttl, other);
  }

  lemma AboveOnceIn(z: Owners, me: Node, now: u64, ttl: nat, other: Node)
    requires other in z && other != me
    ensures Above(RemoveUpTo(z, now - ttl)[me := now], other, z[other]) == AboveAfter(z, me, now, ttl, other)
  {
    var added := RemoveUpTo(z, now - ttl)[me := now];
    forall n ensures n in Above(added, other, z[other]) <==> n in AboveAfter(z, me, now, ttl, other) {
    }
  }

  /** Whom a lookup shows: the owners heard of no longer than the time to live ago. */
  function Shown(z: Owners, now: u64, ttl: nat): set<Node> {
    set n | n in z && z[n] + ttl >= now
  }

  /** A synchronisation registers exactly when its lookup does not show the caller, and shows room. */
  lemma RegistersIff(seen: Owners, me: Node, lookedUp: u64, ttl: nat)
    ensures Registers(seen, me, lookedUp, ttl) <==>
            me !in Shown(seen, lookedUp, ttl) && |Shown(seen, lookedUp, ttl)| < MAX_CHUNK_OWNERS
  {
    assert Live(seen, lookedUp, ttl) == Shown(seen, lookedUp, ttl);
  }

  /** So a synchronisation, whatever happens between its lookup and its registration, evicts a live owner
      exactly when it has seen room and, by the time it registers, that owner has fallen behind. */
  lemma SyncEvictsIff(seen: Owners, z: Owners, me: Node, lookedUp: u64, now: u64, ttl: nat, other: Node)
    requires other in z && other != me && z[other] > now - ttl
    ensures other !in Sync(seen, z, me, lookedUp, now, ttl) <==>
            && me !in Shown(seen, lookedUp, ttl) && |Shown(seen, lookedUp, ttl)| < MAX_CHUNK_OWNERS
            && |AboveAfter(z, me, now, ttl, other)| >= MAX_CHUNK_OWNERS
  {
    RegistersIff(seen, me, lookedUp, ttl);
    RegisterEvictsIff(z, me, now, ttl, MAX_CHUNK_OWNERS, other);
  }

  /** What it leaves: without room, everything as it was; else live owners with the scores they had, and
      the caller, if fewer live owners than the limit rank above it. */
  lemma SyncExact(seen: Owners, z: Owners, me: Node, lookedUp: u64, now: u64, ttl: nat)
    ensures var z' := Sync(seen, z, me, lookedUp, now, ttl);
            if me in Shown(seen, lookedUp, ttl) || |Shown(seen, lookedUp, ttl)| >= MAX_CHUNK_OWNERS then z' == z
            else
              && |z'| <= MAX_CHUNK_OWNERS
              && (forall n :: n in z' && n != me ==> n in z && z'[n] == z[n] && z[n] > now - ttl)
              && (me in z' ==> z'[me] == now)
              && (me in z' <==> |LiveAbove(z, me, now, ttl)| < MAX_CHUNK_OWNERS)
  {
    RegistersIff(seen, me, lookedUp, ttl);
    RegisterExact(z, me, now, ttl, MAX_CHUNK_OWNERS);
  }

  /** A node that unregisters is gone and takes no one with it; a key that expires takes all. */
  lemma LeavingExact(z: Owners, me: Node, n: Node)
    ensures n in Apply(z, UnregisterNode(me)) <==> n in z && n != me
    ensures n in Apply(z, UnregisterNode(me)) ==> Apply(z, UnregisterNode(me))[n] == z[n]
    ensures n !in Apply(z, ExpireKey)
  {
  }

  /** A synchronisation into which no one else interleaves evicts no owner still inside its time to
      live when it registers; and when it registers, it stays. */
  lemma SyncEvictsNoLiveOwner(z: Owners, me: Node, lookedUp: u64, now: u64, ttl: nat, other: Node)
    requires lookedUp <= now
    requires other in z && other != me && z[other] > now - ttl
    ensures other in Sync(z, z, me, lookedUp, now, ttl) && Sync(z, z, me, lookedUp, now, ttl)[other] == z[other]
    ensures |Shown(z, lookedUp, ttl)| < MAX_CHUNK_OWNERS ==> me in Sync(z, z, me, lookedUp, now, ttl)
  {
    assert Live(z, lookedUp, ttl) == Shown(z, lookedUp, ttl);
    if Registers(z, me, lookedUp, ttl) {
      var live := RemoveUpTo(z, now - ttl);
      var added := live[me := now];
      assert added.Keys <= Live(z, lookedUp, ttl) + {me};
      SubsetSmaller(added.Keys, Live(z, lookedUp, ttl) + {me});
    }
  }

  lemma ApplyThen(z: Owners, cs: seq<Command>, z': Owners, c: Command)
    requires ApplyAll(z, cs) == z'
    ensures ApplyAll(z, cs + [c]) == Apply(z', c)
  {
    assert (cs + [c])[..|cs|] == cs;
  }

  /** Nodes 1, 2 and 3 register, one after another. */
  function Joining(): seq<Command> {
    [RegisterNode([1], 100, 50)] + [RegisterNode([2], 100, 50)] + [RegisterNode([3], 100, 50)]
  }

  lemma ThreeJoin()
    ensures ApplyAll(map[], Joining()) == map[[1] := 100, [2] := 100, [3] := 100]
  {
    var c1, c2 := RegisterNode([1], 100, 50), RegisterNode([2], 100, 50);
    OneJoins([], map[], [1]);
    assert [] + [c1] == [c1];
    OneJoins([c1], map[[1] := 100], [2]);
    OneJoins([c1] + [c2], map[[1] := 100, [2] := 100], [3]);
  }

  lemma OneJoins(cs: seq<Command>, z: Owners, me: Node)
    requires ApplyAll(map[], cs) == z && |z| <= 2 && me !in z && forall n :: n in z ==> z[n] == 100
    ensures ApplyAll(map[], cs + [RegisterNode(me, 100, 50)]) == z[me := 100]
  {
    RoomToRegister(z, me);
    ApplyThen(map[], cs, z, RegisterNode(me, 100, 50));
  }

  /** Interleaved, it can evict: it sees no owner, three nodes register, and then it does. */
  lemma InterleavedSyncCanEvict()
    ensures var z := ApplyAll(map[], Joining());
            [1] in z && z[[1]] == 100 && [1] !in Sync(map[], z, [4], 100, 100, 50)
  {
    ThreeJoin();
    assert Live(map[], 100, 50) == {};
    var z: Owners := map[[1] := 100, [2] := 100, [3] := 100];
    SyncEvictsIff(map[], z, [4], 100, 100, 50, [1]);
    FourOwners(z);
  }

  /** Two owners at most, registered at time 100, leave room for one more. */
  lemma RoomToRegister(z: Owners, me: Node)
    requires |z| <= 2 && me !in z && forall n :: n in z ==> z[n] == 100
    ensures Register(z, me, 100, 50, MAX_CHUNK_OWNERS).owners == z[me := 100]
  {
    assert RemoveUpTo(z, 50) == z;
    assert z[me := 100].Keys == z.Keys + {me};
    assert |z[me := 100].Keys| == |z[me := 100]| && |z.Keys| == |z|;
  }

  lemma FourOwners(z: Owners)
    requires z == map[[1] := 100, [2] := 100, [3] := 100]
    ensures |AboveAfter(z, [4], 100, 50, [1])| == 3
  {
    assert RemoveUpTo(z, 50) == z;
    assert AboveAfter(z, [4], 100, 50, [1]) == {[2], [3], [4]};
  }
}
