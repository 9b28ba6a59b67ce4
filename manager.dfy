/**
 * The connection registry (the `Manager` companion of WebSocketConnection):
 * an insertion-ordered map from endpoint to connection with a capacity. When
 * full, a new endpoint evicts and closes the endpoint inserted first.
 *
 * The ordered map is a sequence of distinct keys, oldest first, beside a map
 * from key to connection.
 */
module WebSocketManager {
  import opened Wrappers
  import opened ExceptionHandling
  import opened WebSocket

  /** The capacity a fresh registry starts with. */
  const DefaultMaxConnections: int := 5

  /** The message of the IllegalArgumentException for a capacity below 1. */
  const LimitMessage: string := "Connection limit must be greater than 0"

  /** No key occurs twice. */
  predicate Distinct(s: seq<string>) {
    forall i, j :: 0 <= i < j < |s| ==> s[i] != s[j]
  }

  /** `s` with `x` removed, the others kept in order. */
  function Without(s: seq<string>, x: string): (r: seq<string>)
    ensures forall y :: y in r <==> y in s && y != x
    ensures |r| <= |s|
    decreases |s|
  {
    if |s| == 0 then []
    else if s[0] == x then Without(s[1..], x)
    else [s[0]] + Without(s[1..], x)
  }

  /** Removing a key at a known position keeps the keys before it and after it, in order. */
  lemma {:induction false} WithoutAt(s: seq<string>, i: int)
    requires Distinct(s) && 0 <= i < |s|
    ensures Without(s, s[i]) == s[..i] + s[i + 1..]
    decreases |s|
  {
    if i == 0 {
      WithoutAbsent(s[1..], s[0]);
    } else {
      var t := s[1..];
      assert t[i - 1] == s[i];
      assert Distinct(t) by {
        forall a, b | 0 <= a < b < |t|
          ensures t[a] != t[b]
        {
          assert t[a] == s[a + 1] && t[b] == s[b + 1];
        }
      }
      WithoutAt(t, i - 1);
      assert s[..i] == [s[0]] + t[..i - 1];
      assert s[i + 1..] == t[i..];
    }
  }

  /** Removing an absent key changes nothing. */
  lemma {:induction false} WithoutAbsent(s: seq<string>, x: string)
    requires x !in s
    ensures Without(s, x) == s
    decreases |s|
  {
    if |s| > 0 {
      WithoutAbsent(s[1..], x);
    }
  }

  /** Removing a key keeps the others distinct. */
  lemma WithoutDistinct(s: seq<string>, x: string)
    requires Distinct(s)
    ensures Distinct(Without(s, x))
  {
    if x in s {
      var i :| 0 <= i < |s| && s[i] == x;
      WithoutAt(s, i);
      var r := s[..i] + s[i + 1..];
      forall a, b | 0 <= a < b < |r|
        ensures r[a] != r[b]
      {
        var a' := if a < i then a else a + 1;
        var b' := if b < i then b else b + 1;
        assert r[a] == s[a'] && r[b] == s[b'];
      }
    } else {
      WithoutAbsent(s, x);
    }
  }

  /** A sequence of distinct keys has as many elements as its set. */
  lemma {:induction false} DistinctCard(s: seq<string>)
    requires Distinct(s)
    ensures |set x | x in s| == |s|
    decreases |s|
  {
    if |s| > 0 {
      var t := s[1..];
      assert Distinct(t) by {
        forall a, b | 0 <= a < b < |t|
          ensures t[a] != t[b]
        {
          assert t[a] == s[a + 1] && t[b] == s[b + 1];
        }
      }
      DistinctCard(t);
      assert s[0] !in t by {
        forall j | 0 <= j < |t|
          ensures t[j] != s[0]
        {
          assert t[j] == s[j + 1];
        }
      }
      assert (set x | x in s) == {s[0]} + (set x | x in t);
    }
  }

  /** The newest `n` keys: what is left after evicting oldest-first down to `n`. */
  function Newest(s: seq<string>, n: int): (r: seq<string>)
    requires n > 0
    ensures |r| <= n && |r| <= |s|
    ensures |s| <= n ==> r == s
  {
    if |s| > n then s[|s| - n..] else s
  }

  /**
   * What `closeSession` does to a settled connection, between the caller's
   * entry and now: a full teardown that closes the session it held.
   */
  twostate predicate Closed(c: Connection)
    reads c
  {
    && c.TornDown()
    && c.transport == old(c.transport) + (if old(c.session).Some? then [CloseCall(old(c.session).value)] else [])
    && c.delivered == old(c.delivered)
  }

  class ConnectionManager {
    var maxConnections: int
    /** The endpoints, oldest first. */
    var keys: seq<string>
    var conns: map<string, Connection>

    /**
     * The registry's shape: distinct keys, one connection per key, no
     * connection under two keys, and every connection settled.
     */
    ghost predicate Sound()
      reads this, conns.Values
    {
      && Distinct(keys)
      && (forall k :: k in conns <==> k in keys)
      && (forall k1, k2 :: k1 in conns && k2 in conns && k1 != k2 ==> conns[k1] != conns[k2])
      && (forall k :: k in conns ==> conns[k].Valid())
    }

    /** Sound, with a positive capacity that the registry does not exceed. */
    ghost predicate Valid()
      reads this, conns.Values
    {
      Sound() && 0 < maxConnections && |keys| <= maxConnections
    }

    constructor ()
      ensures maxConnections == DefaultMaxConnections && keys == [] && conns == map[]
      ensures Valid()
    {
      maxConnections := DefaultMaxConnections;
      keys := [];
      conns := map[];
    }

    /** `getMaxConnections`. */
    function MaxConnections(): (n: int)
      reads this, conns.Values
      requires Valid()
      ensures n > 0 && ConnectionCount() <= n
    {
      maxConnections
    }

    /** `getActiveConnections`: the registered endpoints. */
    function ActiveConnections(): (active: set<string>)
      reads this, conns.Values
      requires Sound()
      ensures forall k :: k in active <==> k in keys
      ensures |active| == |keys|
    {
      DistinctCard(keys);
      assert conns.Keys == set x | x in keys;
      conns.Keys
    }

    /** `getConnectionCount`: one per registered endpoint. */
    function ConnectionCount(): (n: int)
      reads this, conns.Values
      requires Sound()
      ensures n == |keys|
    {
      DistinctCard(keys);
      assert conns.Keys == set x | x in keys;
      |conns|
    }

    /**
     * `closeConnection`: removes the endpoint, keeping the order of the
     * others, then closes its connection; an absent endpoint is a no-op.
     */
    method CloseConnection(endpoint: string)
      requires Sound()
      modifies this, if endpoint in conns then {conns[endpoint]} else {}
      ensures keys == Without(old(keys), endpoint)
      ensures endpoint !in old(conns) ==> keys == old(keys) && conns == old(conns)
      ensures conns == old(conns) - {endpoint}
      ensures endpoint in old(conns) ==> Closed(old(conns)[endpoint])
      ensures maxConnections == old(maxConnections)
      ensures Sound()
    {
      if endpoint in conns {
        var c := conns[endpoint];
        WithoutDistinct(keys, endpoint);
        keys := Without(keys, endpoint);
        conns := conns - {endpoint};
        c.CloseSession();
      } else {
        WithoutAbsent(keys, endpoint);
      }
    }

    /** Removes and closes the oldest endpoint, as `closeConnection` on the first key. */
    method EvictOldest()
      requires Sound() && 0 < |keys|
      modifies this, {conns[keys[0]]}
      ensures keys == old(keys)[1..] && conns == old(conns) - {old(keys)[0]}
      ensures Closed(old(conns)[old(keys)[0]])
      ensures maxConnections == old(maxConnections)
      ensures Sound()
    {
      WithoutAt(keys, 0);
      CloseConnection(keys[0]);
    }

    /**
     * `getConnection`: the registered connection when the endpoint is known,
     * whatever the URL and handler; otherwise, when full, the oldest endpoint
     * is removed and closed first, and a new Disconnected connection is
     * registered last.
     */
    method GetConnection(endpoint: string, url: string, handler: ExceptionHandler) returns (c: Connection)
      requires Valid()
      modifies this, if endpoint !in conns && |keys| >= maxConnections && 0 < |keys| && keys[0] in conns then {conns[keys[0]]} else {}
      ensures endpoint in old(conns) ==> c == old(conns)[endpoint] && keys == old(keys) && conns == old(conns)
      ensures endpoint !in old(conns) ==>
        && fresh(c) && c.url == url && c.handler == handler
        && c.TornDown() && c.delivered == [] && c.transport == []
        && keys == (if |old(keys)| >= old(maxConnections) then old(keys)[1..] else old(keys)) + [endpoint]
        && conns == (if |old(keys)| >= old(maxConnections) then old(conns) - {old(keys)[0]} else old(conns))[endpoint := c]
      ensures endpoint !in old(conns) && |old(keys)| >= old(maxConnections) ==> Closed(old(conns)[old(keys)[0]])
      ensures endpoint in conns && conns[endpoint] == c
      ensures maxConnections == old(maxConnections)
      ensures Valid()
    {
      if endpoint in conns {
        c := conns[endpoint];
        return;
      }
      if |keys| >= maxConnections {
        EvictOldest();
      }
      c := new Connection(url, handler);
      keys := keys + [endpoint];
      conns := conns[endpoint := c];
    }

    /**
     * Starts a registered connection (what `connectToWebSocket` does with the
     * connection it gets); the registry stays valid.
     */
    method StartRegistered(c: Connection, hasOnClose: bool)
      requires Valid() && c in conns.Values
      modifies c
      ensures old(c.state) == Connected || old(c.state) == Connecting ==> unchanged(c)
      ensures old(c.state) == Disconnected ==>
        && c.state == Connecting && c.phase.Handshaking? && c.hasOnClose == hasOnClose
        && c.session.None? && c.job == Some(old(c.launched)) && c.launched == old(c.launched) + 1 && !c.isClosing
        && c.delivered == old(c.delivered) && c.transport == old(c.transport)
      ensures c.state.Connecting? || c.state.Connected?
      ensures Valid()
    {
      c.Start(hasOnClose);
      forall k | k in conns
        ensures conns[k].Valid()
      {
        if conns[k] != c {
          assert unchanged(conns[k]);
        }
      }
    }

    /**
     * `closeAll`: closes every connection, oldest first, then empties the
     * registry.
     */
    method CloseAll()
      requires Sound()
      modifies this, conns.Values
      ensures keys == [] && conns == map[]
      ensures forall k :: k in old(conns) ==> Closed(old(conns)[k])
      ensures maxConnections == old(maxConnections)
      ensures Sound()
    {
      for i := 0 to |keys|
        invariant keys == old(keys) && conns == old(conns) && maxConnections == old(maxConnections)
        invariant forall j :: 0 <= j < i ==> Closed(conns[keys[j]])
        invariant forall j :: i <= j < |keys| ==> unchanged(conns[keys[j]])
        invariant forall k :: k in conns ==> conns[k].Valid()
      {
        var c := conns[keys[i]];
        c.CloseSession();
      }
      keys := [];
      conns := map[];
    }

    /**
     * The registry part-way through evicting from `orig`/`origConns`: the
     * keys left are a suffix of `orig` with their connections, and the
     * connections of the keys evicted so far are in `gone`, torn down and
     * no longer registered.
     */
    ghost predicate EvictingFrom(orig: seq<string>, origConns: map<string, Connection>, gone: set<Connection>)
      reads this, conns.Values, gone
    {
      && Sound()
      && |keys| <= |orig| && keys == orig[|orig| - |keys|..]
      && (forall k :: k in conns ==> k in origConns && conns[k] == origConns[k])
      && (forall i :: 0 <= i < |orig| - |keys| ==> orig[i] in origConns && origConns[orig[i]] in gone)
      && (forall c :: c in gone ==> c.TornDown())
      && (forall k :: k in conns ==> conns[k] !in gone)
    }

    /** One turn of the eviction loop: the oldest remaining endpoint joins the evicted ones. */
    method EvictStep(ghost orig: seq<string>, ghost origConns: map<string, Connection>, ghost gone: set<Connection>)
      returns (ghost gone': set<Connection>)
      requires EvictingFrom(orig, origConns, gone) && 0 < |keys|
      modifies this, {conns[keys[0]]}
      ensures EvictingFrom(orig, origConns, gone')
      ensures |keys| == |old(keys)| - 1 && maxConnections == old(maxConnections)
      ensures forall k :: k in conns ==> k in old(conns) && unchanged(old(conns)[k])
    {
      ghost var before := keys;
      ghost var evictee := conns[keys[0]];
      assert evictee !in gone;
      EvictOldest();
      forall c | c in gone
        ensures c.TornDown()
      {
        assert c != evictee;
      }
      gone' := gone + {evictee};
      assert before[0] == orig[|orig| - |before|];
      assert keys == orig[|orig| - |keys|..];
    }

    /**
     * The eviction loop of `setMaxConnections`: the oldest endpoints are
     * closed and removed until at most `maxConnections` remain.
     */
    method EvictDownToCapacity()
      requires Sound() && 0 < maxConnections
      modifies this, conns.Values
      ensures maxConnections == old(maxConnections) && keys == Newest(old(keys), maxConnections)
      ensures forall k :: k in conns ==> k in old(conns) && conns[k] == old(conns)[k]
      ensures forall i :: 0 <= i < |old(keys)| - |keys| ==> old(conns)[old(keys)[i]].TornDown()
      ensures forall k :: k in conns ==> unchanged(old(conns)[k])
      ensures Valid()
    {
      ghost var gone: set<Connection> := {};
      while |keys| > maxConnections
        invariant EvictingFrom(old(keys), old(conns), gone)
        invariant maxConnections == old(maxConnections)
        invariant |keys| >= maxConnections || keys == old(keys)
        invariant forall k :: k in conns ==> unchanged(old(conns)[k])
        decreases |keys|
      {
        gone := EvictStep(old(keys), old(conns), gone);
      }
      assert keys == Newest(old(keys), maxConnections) by {
        if |old(keys)| > maxConnections {
          assert |keys| == maxConnections;
        } else {
          assert keys == old(keys);
        }
      }
      EvictedTornDown(old(keys), old(conns), gone);
    }

    /** The connections of the keys evicted so far are torn down. */
    lemma EvictedTornDown(orig: seq<string>, origConns: map<string, Connection>, gone: set<Connection>)
      requires EvictingFrom(orig, origConns, gone)
      ensures forall i :: 0 <= i < |orig| - |keys| ==> origConns[orig[i]].TornDown()
    {
    }

    /**
     * `setMaxConnections`: a limit below 1 fails and changes nothing.
     * Otherwise the limit is set and the oldest endpoints are closed and
     * removed until at most `limit` remain; the survivors are the newest
     * ones, in their order.
     */
    method SetMaxConnections(limit: int) returns (r: Outcome<string>)
      requires Valid()
      modifies this, conns.Values
      ensures limit <= 0 ==> r == Fail(LimitMessage) && unchanged(this) && unchanged(conns.Values)
      ensures limit > 0 ==> r == Pass && maxConnections == limit && keys == Newest(old(keys), limit)
      ensures forall k :: k in conns ==> k in old(conns) && conns[k] == old(conns)[k]
      ensures forall i :: 0 <= i < |old(keys)| - |keys| ==> old(conns)[old(keys)[i]].TornDown()
      ensures forall k :: k in conns ==> unchanged(old(conns)[k])
      ensures Valid()
    {
      if limit <= 0 {
        return Fail(LimitMessage);
      }
      maxConnections := limit;
      EvictDownToCapacity();
      r := Pass;
    }
  }
}
