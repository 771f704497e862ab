/** Choosing and keeping the two edges of a tunnel inside a tunnel. */
module WarpInWarp {
  import opened Wrappers

  const MAX_CONSECUTIVE_FAILS: nat := 2

  datatype Peer = Peer(ip: string, port: nat)

  datatype Endpoints = Endpoints(outer: Option<Peer>, inner: Option<Peer>)

  /** An endpoint that answered a scan, and how fast. */
  datatype Verified = Verified(peer: Peer, rtt: nat)

  // ---------------------------------------------------------------- endpoints given by hand

  predicate Separate(e: Endpoints) {
    e.outer.Some? && e.inner.Some? ==> e.outer.value.ip != e.inner.value.ip
  }

  function Checked(e: Endpoints): Option<Endpoints> {
    if Separate(e) then Some(e) else None
  }

  function Nth(peers: seq<Peer>, i: nat): Option<Peer> {
    if i < |peers| then Some(peers[i]) else None
  }

  function Or(a: Option<Peer>, b: Option<Peer>): Option<Peer> {
    if a.Some? then a else b
  }

  /**
   The endpoints the settings name; `None` when they put both hops on one address. A hop's own setting comes before
   the list, and the list before the older settings, which count for the inner hop only if nothing else named the outer.
   */
  function Pinned(list: seq<Peer>, outer: Option<Peer>, inner: Option<Peer>, forced: Option<seq<Peer>>)
    : (r: Option<Endpoints>)
    ensures var older := if forced.Some? then forced.value else [];
            var first := Or(outer, Or(Nth(list, 0), Nth(older, 0)));
            var second := Or(inner, Or(Nth(list, 1), if outer.None? && list == [] then Nth(older, 1) else None));
            r == Checked(Endpoints(first, second))
    ensures r.Some? ==> Separate(r.value)
  {
    var named := Checked(Endpoints(Or(outer, Nth(list, 0)), Or(inner, Nth(list, 1))));
    if named.None? || named.value.outer.Some? || forced.None? then named
    else Checked(Endpoints(Nth(forced.value, 0), Or(named.value.inner, Nth(forced.value, 1))))
  }

  // ---------------------------------------------------------------- what a scan yields

  /** `v` behind everything at least as fast. */
  function InsertByRtt(sorted: seq<Verified>, v: Verified): seq<Verified> {
    if sorted == [] || sorted[0].rtt > v.rtt then [v] + sorted
    else [sorted[0]] + InsertByRtt(sorted[1..], v)
  }

  function ByRtt(found: seq<Verified>): seq<Verified> {
    if found == [] then [] else InsertByRtt(ByRtt(found[..|found| - 1]), found[|found| - 1])
  }

  ghost predicate Sorted(s: seq<Verified>) {
    forall i, j :: 0 <= i < j < |s| ==> s[i].rtt <= s[j].rtt
  }

  lemma {:induction false} InsertSorts(s: seq<Verified>, v: Verified)
    requires Sorted(s)
    ensures Sorted(InsertByRtt(s, v))
    ensures forall x :: x in InsertByRtt(s, v) <==> x == v || x in s
  {
    if s != [] && s[0].rtt <= v.rtt {
      InsertSorts(s[1..], v);
      var tail := InsertByRtt(s[1..], v);
      assert s == [s[0]] + s[1..];
      forall i | 0 <= i < |tail| ensures s[0].rtt <= tail[i].rtt {
        assert tail[i] in tail;
      }
    }
  }

  lemma {:induction false} ByRttSorts(found: seq<Verified>)
    ensures Sorted(ByRtt(found))
    ensures forall x :: x in ByRtt(found) <==> x in found
  {
    if found != [] {
      var before := found[..|found| - 1];
      ByRttSorts(before);
      InsertSorts(ByRtt(before), found[|found| - 1]);
      assert found == before + [found[|found| - 1]];
    }
  }

  predicate Seen(s: seq<Verified>, ip: string) {
    exists i :: 0 <= i < |s| && s[i].peer.ip == ip
  }

  /** The first of every address. */
  function Firsts(s: seq<Verified>): seq<Verified> {
    if s == [] then []
    else
      var before := Firsts(s[..|s| - 1]);
      if Seen(before, s[|s| - 1].peer.ip) then before else before + [s[|s| - 1]]
  }

  function DistinctByIp(found: seq<Verified>): seq<Verified> {
    Firsts(ByRtt(found))
  }

  /** One endpoint for every address that answered, its fastest, in order of speed. */
  ghost predicate FastestOfEach(found: seq<Verified>, r: seq<Verified>) {
    && Sorted(r)
    && (forall i, j :: 0 <= i < j < |r| ==> r[i].peer.ip != r[j].peer.ip)
    && (forall v :: v in r ==> v in found)
    && (forall v :: v in found ==> Faster(r, v))
  }

  ghost predicate Faster(r: seq<Verified>, v: Verified) {
    exists i :: 0 <= i < |r| && r[i].peer.ip == v.peer.ip && r[i].rtt <= v.rtt
  }

  lemma {:induction false} FirstsAreFastest(s: seq<Verified>)
    requires Sorted(s)
    ensures FastestOfEach(s, Firsts(s))
  {
    if s != [] {
      var before, last := s[..|s| - 1], s[|s| - 1];
      FirstsAreFastest(before);
      assert s == before + [last];
      var kept, after := Firsts(before), Firsts(s);
      forall i | 0 <= i < |kept| ensures kept[i].rtt <= last.rtt && after[i] == kept[i] {
        assert kept[i] in kept;
      }
      forall v | v in s ensures Faster(after, v) {
        if v in before {
          var i :| 0 <= i < |kept| && kept[i].peer.ip == v.peer.ip && kept[i].rtt <= v.rtt;
          assert after[i] == kept[i];
        } else if Seen(kept, last.peer.ip) {
          var i :| 0 <= i < |kept| && kept[i].peer.ip == last.peer.ip;
          assert after[i] == kept[i];
        } else {
          assert after[|kept|] == last;
        }
      }
    }
  }

  lemma DistinctAreFastest(found: seq<Verified>)
    ensures FastestOfEach(found, DistinctByIp(found))
  {
    hide InsertByRtt, Firsts, ByRtt;
    ByRttSorts(found);
    FirstsAreFastest(ByRtt(found));
  }

  function Take(s: seq<Verified>, n: nat): seq<Verified> {
    if |s| <= n then s else s[..n]
  }

  function Allowed(s: seq<Verified>, avoid: set<string>): seq<Verified> {
    if s == [] then []
    else
      var before := Allowed(s[..|s| - 1], avoid);
      if s[|s| - 1].peer.ip in avoid then before else before + [s[|s| - 1]]
  }

  /** Up to `want` endpoints on addresses not to avoid, or `None` if a scan turned up none. */
  function SelectPeers(found: seq<Verified>, avoid: set<string>, want: nat): Option<seq<Verified>>
    requires want >= 1
  {
    var picked := Take(Allowed(Take(DistinctByIp(found), want), avoid), want);
    if picked == [] then None else Some(picked)
  }

  ghost predicate Apart(s: seq<Verified>) {
    forall i, j :: 0 <= i < j < |s| ==> s[i].peer.ip != s[j].peer.ip
  }

  lemma {:induction false} AllowedStayApart(s: seq<Verified>, avoid: set<string>)
    requires Apart(s)
    ensures Apart(Allowed(s, avoid))
    ensures forall v :: v in Allowed(s, avoid) <==> v in s && v.peer.ip !in avoid
  {
    if s != [] {
      var before, last := s[..|s| - 1], s[|s| - 1];
      AllowedStayApart(before, avoid);
      assert s == before + [last];
      forall i | 0 <= i < |Allowed(before, avoid)| ensures Allowed(before, avoid)[i].peer.ip != last.peer.ip {
        assert Allowed(before, avoid)[i] in before;
      }
    }
  }

  /** A selection names separate addresses, all found and none of them to avoid. */
  lemma SelectionIsApart(found: seq<Verified>, avoid: set<string>, want: nat)
    requires want >= 1 && SelectPeers(found, avoid, want).Some?
    ensures var picked := SelectPeers(found, avoid, want).value;
            && 1 <= |picked| <= want && Apart(picked)
            && forall i :: 0 <= i < |picked| ==> picked[i] in found && picked[i].peer.ip !in avoid
  {
    hide DistinctByIp, Allowed;
    DistinctAreFastest(found);
    var few := Take(DistinctByIp(found), want);
    AllowedStayApart(few, avoid);
    forall i | 0 <= i < |SelectPeers(found, avoid, want).value|
      ensures SelectPeers(found, avoid, want).value[i] in found &&
          SelectPeers(found, avoid, want).value[i].peer.ip !in avoid
    {
      assert Allowed(few, avoid)[i] in Allowed(few, avoid);
    }
  }

  // ---------------------------------------------------------------- the loop

  /** What the loop holds between rounds. */
  datatype Hops = Hops(outer: Option<Peer>, inner: Option<Peer>, fails: nat)

  /** One tunnel attempt: the round it was made in, its hops, and whether that round scanned for them. */
  datatype Attempt = Attempt(round: nat, outer: Peer, inner: Peer, scanned: bool)

  /** After two failures in a row every hop not given by hand is forgotten. */
  function Forgotten(pinned: Endpoints, s: Hops): Hops {
    if s.fails < MAX_CONSECUTIVE_FAILS then s
    else Hops(if pinned.outer.None? then None else s.outer, if pinned.inner.None? then None else s.inner, 0)
  }

  function Ips(s: Hops): set<string> {
    (if s.outer.Some? then {s.outer.value.ip} else {}) + (if s.inner.Some? then {s.inner.value.ip} else {})
  }

  function Wanted(s: Hops): nat {
    (if s.outer.None? then 1 else 0) + (if s.inner.None? then 1 else 0)
  }

  /** One round, in which a scan, if it comes to one, finds `found`. */
  function Round(pinned: Endpoints, was: Hops, round: nat, found: seq<Verified>): (Hops, Option<Attempt>) {
    var s := Forgotten(pinned, was);
    if s.outer.Some? && s.inner.Some? then
      (s.(fails := s.fails + 1), Some(Attempt(round, s.outer.value, s.inner.value, false)))
    else
      match SelectPeers(found, Ips(s), Wanted(s))
      case None => (s, None)
      case Some(picked) =>
        var outer := if s.outer.Some? then s.outer.value else picked[0].peer;
        var next := if s.outer.Some? then 0 else 1;
        if s.inner.None? && next >= |picked| then (Hops(pinned.outer, pinned.inner, s.fails), None)
        else
          var inner := if s.inner.Some? then s.inner.value else picked[next].peer;
          (Hops(Some(outer), Some(inner), s.fails + 1), Some(Attempt(round, outer, inner, true)))
  }

  /** The hops held after the given rounds, and every attempt made in them. */
  function Run(pinned: Endpoints, scans: seq<seq<Verified>>): (Hops, seq<Attempt>) {
    if scans == [] then (Hops(pinned.outer, pinned.inner, 0), [])
    else
      var last := |scans| - 1;
      var before := Run(pinned, scans[..last]);
      var now := Round(pinned, before.0, last, scans[last]);
      (now.0, if now.1.Some? then before.1 + [now.1.value] else before.1)
  }

  method RunGool(pinned: Endpoints, scans: seq<seq<Verified>>) returns (attempts: seq<Attempt>)
    ensures attempts == Run(pinned, scans).1
  {
    hide SelectPeers;
    var outerPeer, innerPeer, consecutiveFails := pinned.outer, pinned.inner, 0;
    attempts := [];
    for round := 0 to |scans|
      invariant Run(pinned, scans[..round]) == (Hops(outerPeer, innerPeer, consecutiveFails), attempts)
    {
      assert scans[..round + 1][..round] == scans[..round];
      if consecutiveFails >= MAX_CONSECUTIVE_FAILS {
        if pinned.outer.None? {
          outerPeer := None;
        }
        if pinned.inner.None? {
          innerPeer := None;
        }
        consecutiveFails := 0;
      }
      var scanned := outerPeer.None? || innerPeer.None?;
      if scanned {
        var hops := Hops(outerPeer, innerPeer, consecutiveFails);
        var found := SelectPeers(scans[round], Ips(hops), Wanted(hops));
        if found.None? {
          continue;
        }
        var picked := found.value;
        SelectionIsApart(scans[round], Ips(hops), Wanted(hops));
        var outer, inner := outerPeer, innerPeer;
        if outer.None? {
          outer, picked := Some(picked[0].peer), picked[1..];
        }
        if inner.None? && picked != [] {
          inner := Some(picked[0].peer);
        }
        if inner.None? {
          outerPeer, innerPeer := pinned.outer, pinned.inner;
          continue;
        }
        outerPeer, innerPeer := outer, inner;
      }
      attempts := attempts + [Attempt(round, outerPeer.value, innerPeer.value, scanned)];
      consecutiveFails := consecutiveFails + 1;
    }
    assert scans[..|scans|] == scans;
  }

  // ---------------------------------------------------------------- every run

  predicate FoundIn(v: seq<Verified>, peer: Peer) {
    exists i :: 0 <= i < |v| && v[i].peer == peer
  }

  /** What holds of one attempt whatever came before it. */
  ghost predicate Sound(pinned: Endpoints, scans: seq<seq<Verified>>, a: Attempt) {
    && a.round < |scans|
    && a.outer.ip != a.inner.ip
    && (pinned.outer.Some? ==> a.outer == pinned.outer.value)
    && (pinned.inner.Some? ==> a.inner == pinned.inner.value)
    && (a.scanned && pinned.outer.None? ==> FoundIn(scans[a.round], a.outer))
    && (a.scanned && pinned.inner.None? ==> FoundIn(scans[a.round], a.inner))
  }

  /** Attempts go in pairs: the first of a pair scans unless both hops are pinned, the second uses the same hops. */
  ghost predicate Paired(pinned: Endpoints, attempts: seq<Attempt>, k: nat)
    requires k < |attempts|
  {
    if k % 2 == 0 then attempts[k].scanned <==> pinned.outer.None? || pinned.inner.None?
    else
      var one, two := attempts[k - 1], attempts[k];
      !two.scanned && two.outer == one.outer && two.inner == one.inner
  }

  /** What the loop keeps between rounds. */
  ghost predicate Kept(pinned: Endpoints, s: Hops, attempts: seq<Attempt>) {
    && s.fails <= MAX_CONSECUTIVE_FAILS
    && |attempts| % 2 == s.fails % 2
    && (s.fails == 0 ==> s.outer == pinned.outer && s.inner == pinned.inner)
    && (s.fails > 0 ==>
          && attempts != []
          && s.outer == Some(attempts[|attempts| - 1].outer) && s.inner == Some(attempts[|attempts| - 1].inner)
          && s.outer.value.ip != s.inner.value.ip
          && (pinned.outer.Some? ==> s.outer == pinned.outer)
          && (pinned.inner.Some? ==> s.inner == pinned.inner))
  }

  lemma RoundIsSound(pinned: Endpoints, was: Hops, attempts: seq<Attempt>, scans: seq<seq<Verified>>, round: nat)
    requires Separate(pinned) && Kept(pinned, was, attempts) && round < |scans|
    ensures var (s, made) := Round(pinned, was, round, scans[round]);
            && Kept(pinned, s, if made.Some? then attempts + [made.value] else attempts)
            && (made.Some? ==> Sound(pinned, scans, made.value) && made.value.round == round
                               && Paired(pinned, attempts + [made.value], |attempts|))
  {
    hide SelectPeers;
    var s := Forgotten(pinned, was);
    if s.outer.None? || s.inner.None? {
      if SelectPeers(scans[round], Ips(s), Wanted(s)).Some? {
        SelectionIsApart(scans[round], Ips(s), Wanted(s));
      }
    }
  }

  lemma {:induction false} RunIsSound(pinned: Endpoints, scans: seq<seq<Verified>>)
    requires Separate(pinned)
    ensures var (s, attempts) := Run(pinned, scans);
            && Kept(pinned, s, attempts)
            && (forall k :: 0 <= k < |attempts| ==> Sound(pinned, scans, attempts[k]) && Paired(pinned, attempts, k))
            && (forall j, k :: 0 <= j < k < |attempts| ==> attempts[j].round < attempts[k].round)
  {
    hide Round, Kept;
    if scans == [] {
      assert Kept(pinned, Hops(pinned.outer, pinned.inner, 0), []) by { StartIsKept(pinned); }
    } else {
      var before := scans[..|scans| - 1];
      RunIsSound(pinned, before);
      RoundIsSound(pinned, Run(pinned, before).0, Run(pinned, before).1, scans, |scans| - 1);
      var attempts, all := Run(pinned, before).1, Run(pinned, scans).1;
      forall k | 0 <= k < |attempts| ensures Sound(pinned, scans, all[k]) && Paired(pinned, all, k) {
        assert all[k] == attempts[k] && Paired(pinned, attempts, k);
        assert scans[attempts[k].round] == before[attempts[k].round];
      }
    }
  }

  lemma StartIsKept(pinned: Endpoints)
    ensures Kept(pinned, Hops(pinned.outer, pinned.inner, 0), [])
  {
  }
}
