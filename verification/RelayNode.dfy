/**
 The relay server object: one read buffer, one session table, and the handlers
 that run on them. Its handlers are proved to take exactly the steps of
 RelayServer, so what holds of every run there holds of the object.
 */
module RelayNode {
  import opened Basics
  import opened SessionTable
  import opened Sessions
  import opened RelayFrames
  import R = RelayServer

  /** What the node wrote to its socket. */
  datatype Datagram = Datagram(frame: seq<byte>, dest: Addr)

  class Server {
    const store: SessionStore
    const buf: array<byte>
    ghost var node: R.Node

    ghost predicate Valid()
      reads this, store
    {
      && buf.Length == MAX_PACKET_SIZE
      && node.table == store.Contents()
      && node.counters == R.Counters(store.bytesRelayed, store.packetsRelayed, store.packetsDropped)
      && node.reader.Waiting?
    }

    constructor (idleTimeout: int, maxSessions: int)
      ensures Valid() && node == R.START && fresh(store) && fresh(buf)
    {
      store := new SessionStore(idleTimeout, maxSessions);
      buf := new byte[MAX_PACKET_SIZE];
      node := R.START;
    }

    /** The node as a step leaves it, when only the store's fields and the record have moved on. */
    ghost predicate Matches(n: R.Node)
      reads this, store
    {
      && n.table == store.Contents()
      && n.counters == R.Counters(store.bytesRelayed, store.packetsRelayed, store.packetsDropped)
    }

    method HandleBind(n: nat, from: Addr, verdict: Option<R.Claims>, now: int, ghost before: R.Node)
      requires 0 < n <= buf.Length && Matches(before)
      modifies store
      ensures Matches(R.HandleBind(before, store.limits, buf[..n], from, verdict, now))
    {
      var decoded := DecodeBind(buf[..n]);
      if decoded.None? || verdict.None? || verdict.value.device != Some(decoded.value.0) {
        store.RecordDropped();
        return;
      }
      var ok := store.Bind(Owner(verdict.value.network, decoded.value.0), from, verdict.value.expiresAt, now);
      if !ok {
        store.RecordDropped();
      }
    }

    /** The janitor passes that run while the reader is between two locked sections. */
    method RunJanitor(passes: seq<int>, ghost before: R.Node)
      requires Matches(before)
      modifies store
      ensures Matches(R.Resume(before, store.limits, Passes(passes)))
      ensures R.Resume(before, store.limits, Passes(passes)).reader == before.reader
    {
      for i := 0 to |passes|
        invariant Matches(R.Resume(before, store.limits, Passes(passes[..i])))
        invariant R.Resume(before, store.limits, Passes(passes[..i])).reader == before.reader
      {
        assert passes[..i + 1][..i] == passes[..i];
        assert Passes(passes[..i + 1]) == Passes(passes[..i]) + [R.Janitor(passes[i])];
        assert Passes(passes[..i + 1])[..i] == Passes(passes[..i]);
        var _ := store.EvictIdle(passes[i]);
      }
      assert passes[..|passes|] == passes;
    }

    /** Routes and forwards a DATA frame whose sender has been looked up. */
    method FinishData(n: nat, sender: Owner, peer: Uuid, now: int, writable: bool, ghost before: R.Node)
      returns (out: Option<Datagram>)
      requires 0 < n <= buf.Length && Matches(before) && before.reader.DataLooked?
      requires before.reader.sender == sender && before.reader.peer == peer
      requires buf[..n] == Layout(FRAME_DATA, peer, before.reader.payload)
      modifies store, buf
      ensures var after := R.HandleDataRoute(before, now, writable);
        && Matches(after)
        && (|after.sent| == |before.sent| ==> out == None)
        && (|after.sent| > |before.sent| ==>
              out == Some(Datagram(after.sent[|before.sent|].frame, after.sent[|before.sent|].dest)))
    {
      var dest := store.Route(sender, peer, now);
      if dest.None? {
        store.RecordDropped();
        return None;
      }
      RewriteDataPeer(buf, n, sender.device);
      if !writable {
        store.RecordDropped();
        return None;
      }
      assert buf[..n] == Layout(FRAME_DATA, sender.device, before.reader.payload);
      store.RecordRelayed(n);
      out := Some(Datagram(buf[..n], dest.value));
    }

    /** What `HandlePacket` does, as steps of the state machine. */
    ghost function Steps(frame: seq<byte>, from: Addr, verdict: Option<R.Claims>, now: int,
                         passes: seq<int>, later: int, writable: bool): seq<R.Step>
    {
      [R.Receive(frame, from, verdict, now)] + Passes(passes) +
      [R.FinishData(later, writable), R.FinishKeepalive(later)]
    }

    /**
     Handles the datagram in the first `n` bytes of the buffer. `passes` are the clock
     readings of the janitor passes that run before the handler is done.
     */
    method HandlePacket(n: nat, from: Addr, verdict: Option<R.Claims>, now: int,
                        passes: seq<int>, later: int, writable: bool)
      returns (out: Option<Datagram>)
      requires Valid() && 0 < n <= buf.Length
      modifies this`node, store, buf
      ensures Valid()
      ensures node == R.Resume(old(node), store.limits,
                               Steps(old(buf[..n]), from, verdict, now, passes, later, writable))
      ensures |node.sent| == |old(node).sent| + if out.Some? then 1 else 0
      ensures out.Some? ==>
        out.value == Datagram(node.sent[|old(node).sent|].frame, node.sent[|old(node).sent|].dest)
    {
      ghost var frame, limits := buf[..n], store.limits;
      ghost var n0 := node.(handled := node.handled + 1);
      ghost var n1 := R.Next(node, limits, R.Receive(frame, from, verdict, now));
      ghost var n2 := R.Resume(n1, limits, Passes(passes));
      ghost var n3 := R.Next(n2, limits, R.FinishData(later, writable));
      ghost var n4 := R.Next(n3, limits, R.FinishKeepalive(later));
      StepsUnfold(node, limits, frame, from, verdict, now, passes, later, writable);
      PassesOnlyTable(n1, limits, passes);

      out := None;
      var owner := store.Lookup(from);
      if buf[0] == FRAME_BIND {
        HandleBind(n, from, verdict, now, n0);
        RunJanitor(passes, n1);
      } else if buf[0] == FRAME_DATA && owner.Some? && DecodeData(buf[..n]).Some? {
        var (peer, payload) := DecodeData(buf[..n]).value;
        DecodeInvertsLayout(FRAME_DATA, frame, peer, payload);
        RunJanitor(passes, n1);
        out := FinishData(n, owner.value, peer, later, writable, n2);
      } else if buf[0] == FRAME_KEEPALIVE && owner.Some? {
        RunJanitor(passes, n1);
        store.Touch(owner.value, later);
      } else {
        store.RecordDropped();
        RunJanitor(passes, n1);
      }
      node := n4;
    }

    lemma StepsUnfold(n: R.Node, limits: Limits, frame: seq<byte>, from: Addr, verdict: Option<R.Claims>, now: int,
                      passes: seq<int>, later: int, writable: bool)
      ensures var n1 := R.Next(n, limits, R.Receive(frame, from, verdict, now));
        var n3 := R.Next(R.Resume(n1, limits, Passes(passes)), limits, R.FinishData(later, writable));
        R.Resume(n, limits, Steps(frame, from, verdict, now, passes, later, writable)) ==
        R.Next(n3, limits, R.FinishKeepalive(later))
    {
      var first, second, third := R.Receive(frame, from, verdict, now), R.FinishData(later, writable),
                                  R.FinishKeepalive(later);
      var all := Steps(frame, from, verdict, now, passes, later, writable);
      var head := [first] + Passes(passes);
      assert all[..|all| - 1] == head + [second];
      assert (head + [second])[..|head|] == head;
      R.ResumeConcat(n, limits, [first], Passes(passes));
      assert R.Resume(n, limits, [first]) == R.Next(R.Resume(n, limits, [first][..0]), limits, first);
    }
  }

  function Passes(times: seq<int>): (steps: seq<R.Step>)
    ensures |steps| == |times|
  {
    seq(|times|, i requires 0 <= i < |times| => R.Janitor(times[i]))
  }

  /** Janitor passes change nothing but the table. */
  lemma {:induction false} PassesOnlyTable(n: R.Node, limits: Limits, passes: seq<int>)
    ensures R.Resume(n, limits, Passes(passes)) == n.(table := R.Resume(n, limits, Passes(passes)).table)
  {
    if passes != [] {
      assert Passes(passes)[..|passes| - 1] == Passes(passes[..|passes| - 1]);
      PassesOnlyTable(n, limits, passes[..|passes| - 1]);
    }
  }
}
