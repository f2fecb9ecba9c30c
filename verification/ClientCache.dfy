/** The cache of signing clients: least-recently-used eviction, a time to live, and
    disposal, said of the whole history of calls. */
module ClientCache {
  import opened Wrappers

  type ClientId = nat

  datatype Key = Key(user: nat, account: nat)

  datatype Slot = Slot(key: Key, client: ClientId, created: real)

  datatype Config = Config(ttl: real, max: nat)

  /** The cache, oldest use first; the creation time of every client ever built, by id;
      and the clients disposed, in order. */
  datatype State = State(cache: seq<Slot>, born: seq<real>, closed: seq<ClientId>)

  const EMPTY: State := State([], [], [])

  /** What a drop applies to. */
  datatype Target = One(key: Key) | OfUser(user: nat) | All

  predicate Matches(t: Target, k: Key) {
    match t
    case One(key) => k == key
    case OfUser(user) => k.user == user
    case All => true
  }

  /** `ready` is when a client built by this call is put in the cache; `loads` says
      whether the credentials load. */
  datatype Call =
    | Get(key: Key, now: real, ready: real, loads: bool)
    | Drop(target: Target)

  function Survivors(cache: seq<Slot>, t: Target): seq<Slot> {
    if |cache| == 0 then []
    else
      var last := cache[|cache| - 1];
      Survivors(cache[..|cache| - 1], t) + (if Matches(t, last.key) then [] else [last])
  }

  function Victims(cache: seq<Slot>, t: Target): seq<ClientId> {
    if |cache| == 0 then []
    else
      var last := cache[|cache| - 1];
      Victims(cache[..|cache| - 1], t) + (if Matches(t, last.key) then [last.client] else [])
  }

  function DropAll(s: State, t: Target): State {
    s.(cache := Survivors(s.cache, t), closed := s.closed + Victims(s.cache, t))
  }

  function Clients(cache: seq<Slot>): seq<ClientId> { seq(|cache|, i requires 0 <= i < |cache| => cache[i].client) }

  /** The position of a key, or the length if it is not cached. */
  function Find(cache: seq<Slot>, k: Key): (i: nat)
    ensures i <= |cache|
    ensures i < |cache| ==> cache[i].key == k
    ensures i == |cache| ==> forall j | 0 <= j < |cache| :: cache[j].key != k
  {
    if |cache| == 0 then 0
    else if cache[|cache| - 1].key == k then |cache| - 1
    else
      var i := Find(cache[..|cache| - 1], k);
      if i == |cache| - 1 then |cache| else i
  }

  predicate Fresh(cfg: Config, slot: Slot, now: real) { now - slot.created <= cfg.ttl }

  predicate IsHit(cfg: Config, s: State, k: Key, now: real) {
    var i := Find(s.cache, k);
    i < |s.cache| && Fresh(cfg, s.cache[i], now)
  }

  function Evict(s: State, max: nat): State {
    if |s.cache| <= max then s
    else
      var n := |s.cache| - max;
      s.(cache := s.cache[n..], closed := s.closed + Clients(s.cache[..n]))
  }

  function Put(cfg: Config, s: State, k: Key, ready: real): State {
    Evict(State(s.cache + [Slot(k, |s.born|, ready)], s.born + [ready], s.closed), cfg.max)
  }

  function Next(cfg: Config, s: State, c: Call): State {
    match c
    case Drop(t) => DropAll(s, t)
    case Get(k, now, ready, loads) =>
      if IsHit(cfg, s, k, now) then s.(cache := Survivors(s.cache, One(k)) + [s.cache[Find(s.cache, k)]])
      else
        var dropped := DropAll(s, One(k));
        if loads then Put(cfg, dropped, k, ready) else dropped
  }

  /** The client a call returns. */
  function Returned(cfg: Config, s: State, c: Call): Option<ClientId> {
    match c
    case Drop(_) => None
    case Get(k, now, _, loads) =>
      if IsHit(cfg, s, k, now) then Some(s.cache[Find(s.cache, k)].client)
      else if loads then Some(|s.born|)
      else None
  }

  function Run(cfg: Config, calls: seq<Call>): State {
    if |calls| == 0 then EMPTY else Next(cfg, Run(cfg, calls[..|calls| - 1]), calls[|calls| - 1])
  }

  lemma {:induction false} AbsentKeyDrop(s: State, k: Key)
    requires forall j | 0 <= j < |s.cache| :: s.cache[j].key != k
    ensures DropAll(s, One(k)) == s
    decreases |s.cache|
  {
    if |s.cache| == 0 {
      assert s.closed + [] == s.closed;
    } else {
      var n := |s.cache| - 1;
      AbsentKeyDrop(s.(cache := s.cache[..n]), k);
      assert s.cache == s.cache[..n] + [s.cache[n]];
    }
  }

  /** A drop keeps the slots it does not apply to and disposes the clients of the others. */
  lemma {:induction false} DropTakesExactly(cache: seq<Slot>, t: Target)
    ensures forall slot :: slot in Survivors(cache, t) <==> slot in cache && !Matches(t, slot.key)
    ensures forall id :: id in Victims(cache, t) <==> exists slot <- cache :: Matches(t, slot.key) && slot.client == id
    ensures |Survivors(cache, t)| + |Victims(cache, t)| == |cache|
    decreases |cache|
  {
    if |cache| > 0 {
      var before, last := cache[..|cache| - 1], cache[|cache| - 1];
      DropTakesExactly(before, t);
      assert cache == before + [last];
      forall id
        ensures id in Victims(cache, t) <==> exists slot <- cache :: Matches(t, slot.key) && slot.client == id
      {
        if slot :| slot in cache && Matches(t, slot.key) && slot.client == id {
          assert slot in before || slot == last;
        }
      }
    }
  }

  // ── the program ──────────────────────────────────────────────────────────

  datatype Outcome = NoAccount | LoadFailed | Client(id: ClientId)

  class AccountManager {
    const cfg: Config
    var cache: seq<Slot>
    var born: seq<real>
    var closed: seq<ClientId>

    function View(): State
      reads this
    {
      State(cache, born, closed)
    }

    constructor (cfg: Config)
      ensures this.cfg == cfg && View() == EMPTY
    {
      this.cfg := cfg;
      cache, born, closed := [], [], [];
    }

    /** Takes one key out of the cache and disposes its client. */
    method Pop(k: Key)
      modifies `cache, `closed
      ensures View() == DropAll(old(View()), One(k))
      ensures forall slot :: slot in cache <==> slot in old(cache) && slot.key != k
      ensures forall id :: id in closed <==>
                id in old(closed) || exists slot <- old(cache) :: slot.key == k && slot.client == id
    {
      var kept: seq<Slot>, gone: seq<ClientId> := [], [];
      for i := 0 to |cache|
        invariant kept == Survivors(cache[..i], One(k)) && gone == Victims(cache[..i], One(k))
        invariant View() == old(View())
      {
        assert cache[..i + 1][..i] == cache[..i];
        if cache[i].key == k {
          gone := gone + [cache[i].client];
        } else {
          kept := kept + [cache[i]];
        }
      }
      assert cache[..|cache|] == cache;
      DropTakesExactly(cache, One(k));
      cache, closed := kept, closed + gone;
    }

    /** Inserts at the recent end, then pops from the old end while over the limit. */
    method PutClient(k: Key, ready: real) returns (client: ClientId)
      modifies `cache, `born, `closed
      ensures View() == Put(cfg, old(View()), k, ready)
      ensures client == |old(born)|
    {
      client := |born|;
      born := born + [ready];
      cache := cache + [Slot(k, client, ready)];
      ghost var full := cache;
      ghost var n := 0;
      while |cache| > cfg.max
        invariant n <= |full| && cache == full[n..]
        invariant n > 0 ==> |cache| >= cfg.max
        invariant closed == old(closed) + Clients(full[..n])
        invariant born == old(born) + [ready]
      {
        closed := closed + [cache[0].client];
        cache := cache[1..];
        assert Clients(full[..n + 1]) == Clients(full[..n]) + [full[n].client];
        n := n + 1;
      }
      assert full[..0] == [];
    }

    method GetTradingClient(user: nat, account: Option<nat>, fallback: Option<nat>,
                            now: real, ready: real, loads: bool) returns (r: Outcome)
      modifies `cache, `born, `closed
      ensures account.None? && fallback.None? ==> r == NoAccount && View() == old(View())
      ensures account.Some? || fallback.Some? ==>
                var call := Get(Key(user, if account.Some? then account.value else fallback.value), now, ready, loads);
                && View() == Next(cfg, old(View()), call)
                && r == (match Returned(cfg, old(View()), call) case Some(id) => Client(id) case None => LoadFailed)
    {
      if account.None? && fallback.None? {
        return NoAccount;
      }
      var k := Key(user, if account.Some? then account.value else fallback.value);
      var i := Find(cache, k);
      if i < |cache| && now - cache[i].created <= cfg.ttl {
        var slot := cache[i];
        cache := Survivors(cache, One(k)) + [slot];
        return Client(slot.client);
      }
      if i < |cache| {
        Pop(k);
      } else {
        AbsentKeyDrop(View(), k);
      }
      if !loads {
        return LoadFailed;
      }
      var id := PutClient(k, ready);
      return Client(id);
    }

    method Invalidate(user: nat, account: Option<nat>)
      modifies `cache, `closed
      ensures View() == DropAll(old(View()), if account.Some? then One(Key(user, account.value)) else OfUser(user))
      ensures forall slot :: slot in cache <==>
                slot in old(cache) && !(slot.key.user == user && (account.Some? ==> slot.key.account == account.value))
      ensures forall id :: id in closed <==>
                || id in old(closed)
                || exists slot <- old(cache) ::
                     slot.key.user == user && (account.Some? ==> slot.key.account == account.value) && slot.client == id
    {
      if account.Some? {
        Pop(Key(user, account.value));
        return;
      }
      var kept: seq<Slot>, gone: seq<ClientId> := [], [];
      for i := 0 to |cache|
        invariant kept == Survivors(cache[..i], OfUser(user)) && gone == Victims(cache[..i], OfUser(user))
        invariant View() == old(View())
      {
        assert cache[..i + 1][..i] == cache[..i];
        if cache[i].key.user == user {
          gone := gone + [cache[i].client];
        } else {
          kept := kept + [cache[i]];
        }
      }
      assert cache[..|cache|] == cache;
      DropTakesExactly(cache, OfUser(user));
      cache, closed := kept, closed + gone;
    }

    method Clear()
      modifies `cache, `closed
      ensures View() == DropAll(old(View()), All)
      ensures cache == [] && |closed| == |old(closed)| + |old(cache)|
      ensures forall id :: id in closed <==> id in old(closed) || exists slot <- old(cache) :: slot.client == id
    {
      for i := 0 to |cache|
        invariant cache == old(cache) && closed == old(closed) + Victims(cache[..i], All)
        invariant Survivors(cache[..i], All) == []
      {
        assert cache[..i + 1][..i] == cache[..i];
        closed := closed + [cache[i].client];
      }
      assert cache[..|cache|] == cache;
      DropTakesExactly(cache, All);
      cache := [];
    }
  }
}
