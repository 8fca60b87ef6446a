/**
 * The registry of open connections: connect appends, disconnect removes
 * the first occurrence, and a broadcast keeps only the sockets the frame
 * could be sent to.
 */
module Connections {
  import opened Protocol

  /** Whether sending `f` to a socket succeeds; the network decides, so the model takes it as given. */
  type Link = (Socket, Frame) -> bool

  /** The sockets of `s`, in order, to which sending `f` succeeds. */
  function Live(s: seq<Socket>, f: Frame, ok: Link): seq<Socket>
    decreases |s|
  {
    if s == [] then [] else (if ok(s[0], f) then [s[0]] else []) + Live(s[1..], f, ok)
  }

  /** `a` is `b` with some elements left out and the rest in their order. */
  predicate Subsequence(a: seq<Socket>, b: seq<Socket>)
    decreases |b|
  {
    a == [] || (b != [] && (Subsequence(a, b[1..]) || (a[0] == b[0] && Subsequence(a[1..], b[1..]))))
  }

  lemma {:induction false} LiveAppend(a: seq<Socket>, b: seq<Socket>, f: Frame, ok: Link)
    ensures Live(a + b, f, ok) == Live(a, f, ok) + Live(b, f, ok)
    decreases |a|
  {
    if a == [] {
      assert a + b == b;
    } else {
      var head := if ok(a[0], f) then [a[0]] else [];
      assert (a + b)[0] == a[0] && (a + b)[1..] == a[1..] + b;
      assert Live(a + b, f, ok) == head + Live(a[1..] + b, f, ok);
      LiveAppend(a[1..], b, f, ok);
      assert Live(a, f, ok) == head + Live(a[1..], f, ok);
    }
  }

  /** The surviving sockets keep their order: they form a subsequence of the old list. */
  lemma {:induction false} LiveIsSubsequence(s: seq<Socket>, f: Frame, ok: Link)
    ensures Subsequence(Live(s, f, ok), s)
    decreases |s|
  {
    if s != [] {
      LiveIsSubsequence(s[1..], f, ok);
      var rest := Live(s[1..], f, ok);
      if ok(s[0], f) {
        assert Live(s, f, ok) == [s[0]] + rest;
        assert ([s[0]] + rest)[1..] == rest;
      } else {
        assert Live(s, f, ok) == rest;
      }
    }
  }

  /** A socket survives exactly as often as it was listed, if the send to it succeeds, and not at all otherwise. */
  lemma {:induction false} LiveCounts(s: seq<Socket>, f: Frame, ok: Link, x: Socket)
    ensures multiset(Live(s, f, ok))[x] == if ok(x, f) then multiset(s)[x] else 0
    decreases |s|
  {
    if s != [] {
      LiveCounts(s[1..], f, ok, x);
      assert s == [s[0]] + s[1..];
      assert multiset(s) == multiset{s[0]} + multiset(s[1..]);
    }
  }

  /**
   * Filtering the survivors again under the same link keeps all of them.
   * This is a fact about the filter with `ok` held fixed, not about the
   * network: a real second send of the same frame may fail.
   */
  lemma {:induction false} LiveIdempotent(s: seq<Socket>, f: Frame, ok: Link)
    ensures Live(Live(s, f, ok), f, ok) == Live(s, f, ok)
    decreases |s|
  {
    if s != [] {
      LiveIdempotent(s[1..], f, ok);
      var l := Live(s, f, ok);
      if ok(s[0], f) {
        assert l == [s[0]] + Live(s[1..], f, ok);
        assert l != [] && l[0] == s[0] && l[1..] == Live(s[1..], f, ok);
      } else {
        assert l == Live(s[1..], f, ok);
      }
    }
  }

  lemma {:induction false} SubsequenceMembers(a: seq<Socket>, b: seq<Socket>, x: Socket)
    requires Subsequence(a, b) && x in a
    ensures x in b
    decreases |b|
  {
    if Subsequence(a, b[1..]) {
      SubsequenceMembers(a, b[1..], x);
    } else if x != a[0] {
      assert x in a[1..];
      SubsequenceMembers(a[1..], b[1..], x);
    }
  }

  lemma {:induction false} SubsequenceTransitive(a: seq<Socket>, b: seq<Socket>, c: seq<Socket>)
    requires Subsequence(a, b) && Subsequence(b, c)
    ensures Subsequence(a, c)
    decreases |c|
  {
    if a != [] {
      if Subsequence(b, c[1..]) {
        SubsequenceTransitive(a, b, c[1..]);
      } else if Subsequence(a, b[1..]) {
        SubsequenceTransitive(a, b[1..], c[1..]);
      } else {
        SubsequenceTransitive(a[1..], b[1..], c[1..]);
      }
    }
  }

  /** `list.remove(x)`: the first occurrence of `x` is taken out; a list without `x` is left alone. */
  function RemoveFirst(s: seq<Socket>, x: Socket): (r: seq<Socket>)
    ensures x !in s ==> r == s
    ensures x in s ==> |r| == |s| - 1
    decreases |s|
  {
    if s == [] then []
    else if s[0] == x then s[1..] else [s[0]] + RemoveFirst(s[1..], x)
  }

  /** Removing takes exactly one copy of `x` out of the list and keeps every other socket. */
  lemma {:induction false} RemoveFirstCounts(s: seq<Socket>, x: Socket)
    ensures multiset(RemoveFirst(s, x)) == multiset(s) - multiset{x}
    decreases |s|
  {
    if s != [] {
      assert s == [s[0]] + s[1..];
      assert multiset(s) == multiset{s[0]} + multiset(s[1..]);
      if s[0] != x {
        RemoveFirstCounts(s[1..], x);
        assert multiset(RemoveFirst(s, x)) == multiset{s[0]} + multiset(RemoveFirst(s[1..], x));
      }
    }
  }

  /** Taking out the first occurrence at index `i` keeps everything before and after it, in order. */
  lemma {:induction false} RemoveFirstAt(s: seq<Socket>, x: Socket, i: nat)
    requires i < |s| && s[i] == x && x !in s[..i]
    ensures RemoveFirst(s, x) == s[..i] + s[i + 1..]
    decreases i
  {
    if i == 0 {
      assert RemoveFirst(s, x) == s[1..];
    } else {
      assert s[..i][0] == s[0] && s[1..][..i - 1] == s[..i][1..];
      RemoveFirstAt(s[1..], x, i - 1);
      KeepHead(s, x, s[1..][..i - 1], s[i + 1..]);
      assert s[..i] == [s[0]] + s[1..][..i - 1];
    }
  }

  /** A head that is not `x` stays in front of what removing `x` from the tail leaves. */
  lemma KeepHead(s: seq<Socket>, x: Socket, before: seq<Socket>, after: seq<Socket>)
    requires s != [] && s[0] != x
    requires RemoveFirst(s[1..], x) == before + after
    ensures RemoveFirst(s, x) == ([s[0]] + before) + after
  {
  }

  class ConnectionManager {
    /** The open connections, in the order they connected. */
    var active: seq<Socket>

    constructor ()
      ensures active == []
    {
      active := [];
    }

    /** Registers an accepted socket at the end of the list. */
    method Connect(ws: Socket)
      modifies this
      ensures active == old(active) + [ws]
    {
      active := active + [ws];
    }

    /** Removes `ws` if it is registered; otherwise nothing changes. */
    method Disconnect(ws: Socket)
      modifies this
      ensures active == RemoveFirst(old(active), ws)
    {
      if ws in active {
        var i := 0;
        while active[i] != ws
          invariant 0 <= i < |active|
          invariant ws !in active[..i]
          invariant ws in active[i..]
          decreases |active| - i
        {
          assert active[..i + 1] == active[..i] + [active[i]];
          i := i + 1;
        }
        RemoveFirstAt(active, ws, i);
        active := active[..i] + active[i + 1..];
      }
    }

    /**
     * Sends `f` to every registered socket in turn; the list is rebuilt from
     * the sockets the send succeeded for, and those deliveries are returned.
     */
    method Broadcast(f: Frame, ok: Link) returns (sent: seq<Delivery>)
      modifies this
      ensures active == Live(old(active), f, ok)
      ensures sent == Fanout(f, active)
    {
      var living: seq<Socket> := [];
      sent := [];
      var i := 0;
      while i < |active|
        invariant active == old(active)
        invariant 0 <= i <= |active|
        invariant living == Live(active[..i], f, ok)
        invariant sent == Fanout(f, living)
      {
        var ws := active[i];
        LiveAppend(active[..i], [ws], f, ok);
        assert active[..i + 1] == active[..i] + [ws];
        if ok(ws, f) {
          FanoutAppend(f, living, [ws]);
          living := living + [ws];
          sent := sent + [Delivery(ws, f)];
        }
        i := i + 1;
      }
      assert active[..i] == active;
      active := living;
    }
  }

  lemma FanoutAppend(f: Frame, a: seq<Socket>, b: seq<Socket>)
    ensures Fanout(f, a + b) == Fanout(f, a) + Fanout(f, b)
  {
  }
}
