/** The Android session table: routing packets to sessions and reaping them. */
module SessionTable {
  import opened Bytes
  import opened TcpWire
  import opened AndroidSession

  const MAX_SESSIONS: nat := 1024
  const TIME_WAIT_TIMEOUT_MS := 60000
  const IDLE_TIMEOUT_MS := 300000
  const SYN_RECEIVED_TIMEOUT_MS := 10000

  /** A RST sent for a packet no session takes. */
  datatype Reset = Reset(to: SessionKey, seqNum: nat, ackNum: nat)

  /** Whether a sweep at `now` removes a session: closed, or without activity for longer than its state allows. */
  predicate Expired(state: TcpState, lastActivity: int, now: int) {
    var elapsed := now - lastActivity;
    match state
    case Closed => true
    case TimeWait => elapsed > TIME_WAIT_TIMEOUT_MS
    case SynReceived => elapsed > SYN_RECEIVED_TIMEOUT_MS
    case _ => elapsed > IDLE_TIMEOUT_MS
  }

  /** Closed, or idle for more than a minute in TIME_WAIT, ten seconds in SYN_RECEIVED, five minutes otherwise. */
  predicate OutOfTime(state: TcpState, idleMs: int) {
    || state == Closed
    || (state == TimeWait && idleMs > 60 * 1000)
    || (state == SynReceived && idleMs > 10 * 1000)
    || (state !in {Closed, TimeWait, SynReceived} && idleMs > 5 * 60 * 1000)
  }

  class TcpSessionManager {
    var sessions: map<SessionKey, TcpSession>
    var resets: seq<Reset>

    /** At most 1024 sessions, each stored under its own 4-tuple. */
    ghost predicate Valid()
      reads this
    {
      |sessions| <= MAX_SESSIONS && forall k | k in sessions :: sessions[k].key == k
    }

    constructor ()
      ensures Valid() && sessions == map[] && resets == []
    {
      sessions, resets := map[], [];
    }

    method SendRst(key: SessionKey, e: Event, ackNumber: nat)
      requires e.Packet?
      modifies this`resets
      ensures resets == old(resets) + [Reset(key, ackNumber, if e.flags.syn then Wrap(e.seqNum + 1) else e.seqNum)]
    {
      resets := resets + [Reset(key, ackNumber, if e.flags.syn then Wrap(e.seqNum + 1) else e.seqNum)];
    }

    /** Routes one packet. `isn` is the initial number a new session would draw. */
    method HandlePacket(key: SessionKey, e: Event, ackNumber: nat, isn: nat, now: int)
      requires Valid() && e.Packet?
      modifies this, if key in sessions then {sessions[key]} else {}
      ensures Valid() && |sessions| <= 1024
      // Only the session of the packet's own key is touched.
      ensures forall k | k != key ::
                (k in sessions <==> k in old(sessions)) && (k in sessions ==> sessions[k] == old(sessions[k]))
      // An opening SYN is refused when the table is full; otherwise it replaces whatever its key held.
      ensures e.flags.syn && !e.flags.ack && |old(sessions)| >= 1024 ==>
                && sessions == old(sessions)
                && resets == old(resets) + [Reset(key, ackNumber, Wrap(e.seqNum + 1))]
      ensures e.flags.syn && !e.flags.ack && |old(sessions)| < 1024 ==>
                && key in sessions && fresh(sessions[key]) && resets == old(resets)
                && sessions[key].View() == Step(Init(isn), e) && sessions[key].lastActivity == now
                && (key in old(sessions) ==> old(sessions[key]).state == Closed)
      // Any other packet goes to its session, which is dropped when that closes it.
      ensures !(e.flags.syn && !e.flags.ack) && key in old(sessions) ==>
                && old(sessions[key]).View() == Step(old(sessions[key].View()), e) && resets == old(resets)
                && (key in sessions <==> old(sessions[key]).state != Closed)
                && (key in sessions ==> sessions[key] == old(sessions[key]))
      ensures !(e.flags.syn && !e.flags.ack) && key !in old(sessions) ==>
                && sessions == old(sessions)
                && resets == old(resets)
                   + [Reset(key, ackNumber, if e.flags.syn then Wrap(e.seqNum + 1) else e.seqNum)]
    {
      if e.flags.syn && !e.flags.ack {
        if |sessions| >= MAX_SESSIONS {
          SendRst(key, e, ackNumber);
        } else {
          Open(key, e, isn, now);
        }
      } else if key in sessions {
        Forward(key, e, now);
      } else {
        SendRst(key, e, ackNumber);
      }
    }

    method FirstPacket(session: TcpSession, e: Event, isn: nat, now: int)
      requires e.Packet? && session.View() == Init(isn)
      modifies session
      ensures session.View() == Step(Init(isn), e) && session.lastActivity == now
    {
      session.HandlePacket(e, now);
    }

    /** A fresh session takes the opening SYN; a stale one with the same key is closed. */
    method Open(key: SessionKey, e: Event, isn: nat, now: int)
      requires Valid() && e.Packet? && |sessions| < MAX_SESSIONS
      modifies this`sessions, if key in sessions then {sessions[key]} else {}
      ensures Valid() && key in sessions && fresh(sessions[key])
      ensures sessions == old(sessions)[key := sessions[key]]
      ensures sessions[key].View() == Step(Init(isn), e) && sessions[key].lastActivity == now
      ensures key in old(sessions) ==> old(sessions[key]).state == Closed
    {
      DropStale(key);
      var session := new TcpSession(key, isn, now);
      PutReplaces(old(sessions), key, session);
      Install(key, session);
      FirstPacket(session, e, isn, now);
    }

    method Install(key: SessionKey, session: TcpSession)
      requires Valid() && key !in sessions && |sessions| < MAX_SESSIONS && session.key == key
      modifies this`sessions
      ensures Valid() && sessions == old(sessions)[key := session]
    {
      sessions := sessions[key := session];
    }

    /** Closes and removes whatever the table holds under `key`. */
    method DropStale(key: SessionKey)
      requires Valid() && |sessions| < MAX_SESSIONS
      modifies this`sessions, if key in sessions then {sessions[key]} else {}
      ensures Valid() && sessions == old(sessions) - {key} && |sessions| < MAX_SESSIONS
      ensures key in old(sessions) ==> old(sessions[key]).state == Closed
    {
      if key in sessions {
        sessions[key].DoClose();
        RemovedKeyShrinks(sessions, key);
        sessions := sessions - {key};
      }
    }

    /** An existing session takes the packet and leaves the table if that closes it. */
    method Forward(key: SessionKey, e: Event, now: int)
      requires Valid() && e.Packet? && key in sessions
      modifies this`sessions, sessions[key]
      ensures Valid()
      ensures old(sessions[key]).View() == Step(old(sessions[key].View()), e)
      ensures sessions == if old(sessions[key]).state == Closed then old(sessions) - {key} else old(sessions)
    {
      var session := sessions[key];
      session.HandlePacket(e, now);
      if session.IsClosed() {
        RemovedKeyShrinks(sessions, key);
        sessions := sessions - {key};
      }
    }

    /** Closes and removes one session if a sweep at `now` is to. */
    method Reap(k: SessionKey, session: TcpSession, now: int)
      requires k in sessions && sessions[k] == session
      modifies this`sessions, session`state, session`hasOutput
      ensures if Expired(old(session.state), session.lastActivity, now) then
                sessions == old(sessions) - {k} && session.state == Closed
              else
                sessions == old(sessions) && unchanged(session)
    {
      if Expired(session.state, session.lastActivity, now) {
        session.DoClose();
        sessions := sessions - {k};
      }
    }

    ghost function Doomed(now: int): (keys: set<SessionKey>)
      reads this, sessions.Values
    {
      set k | k in sessions && Expired(sessions[k].state, sessions[k].lastActivity, now)
    }

    /** The iteration over the table: exactly the doomed entries are closed and removed. */
    method Sweep(now: int, ghost doomed: set<SessionKey>, ghost objects: set<TcpSession>)
      requires Valid() && doomed == Doomed(now) && forall k | k in sessions :: sessions[k] in objects
      modifies this`sessions, objects
      ensures forall k :: k in sessions <==> k in old(sessions) && k !in doomed
      ensures forall k | k in sessions :: sessions[k] == old(sessions)[k]
      ensures forall k | k in sessions :: unchanged(sessions[k])
      ensures forall k | k in doomed :: old(sessions[k]).state == Closed
    {
      ghost var before := sessions;
      var todo := sessions.Keys;
      while todo != {}
        invariant forall k :: k in sessions <==> k in before && (k in doomed ==> k in todo)
        invariant forall k | k in todo :: k in sessions
        invariant forall k | k in sessions :: sessions[k] == before[k]
        invariant forall k | k in sessions :: unchanged(before[k])
        invariant forall k | k in doomed && k !in todo :: before[k].state == Closed
        decreases |todo|
      {
        var k :| k in todo;
        todo := todo - {k};
        var session := sessions[k];
        assert forall j | j in before && j != k :: before[j].key != session.key;
        Reap(k, session, now);
      }
    }

    /** One sweep: closes and removes exactly the closed and expired sessions, and leaves the others alone. */
    method Cleanup(now: int)
      requires Valid()
      modifies this`sessions, sessions.Values
      ensures Valid() && |sessions| <= |old(sessions)|
      ensures forall k :: k in sessions <==>
                k in old(sessions) && !old(OutOfTime(sessions[k].state, now - sessions[k].lastActivity))
      ensures forall k | k in sessions ::
                sessions[k] == old(sessions[k]) && unchanged(sessions[k]) && sessions[k].state != Closed
      ensures forall k | k in old(sessions) && k !in sessions :: old(sessions[k]).state == Closed
    {
      ghost var before := sessions;
      Sweep(now, Doomed(now), sessions.Values);
      KeySubset(sessions.Keys, before.Keys);
    }
  }

  lemma PutReplaces<K, V>(m: map<K, V>, k: K, v: V)
    ensures (m - {k})[k := v] == m[k := v]
  {
  }

  lemma RemovedKeyShrinks<K, V>(m: map<K, V>, k: K)
    requires k in m
    ensures |m - {k}| == |m| - 1
  {
    assert (m - {k}).Keys == m.Keys - {k};
    assert |m.Keys| == |m| && |(m - {k}).Keys| == |m - {k}|;
  }

  lemma KeySubset<K>(a: set<K>, b: set<K>)
    requires a <= b
    ensures |a| <= |b|
  {
    assert b == a + (b - a);
  }
}
