/** What the relay's log says: queues replayed, membership replayed, copies counted. */
module RelayHistory {
  import opened RelayRooms
  import opened CommonTypes

  /** The addresses of the log entries about one queue of one room, or one broadcast. */
  datatype Topic =
    | JoinAsked(o: nat)
    | JoinAnswered(o: nat)
    | LeaveAsked(o: nat)
    | LeaveDone(o: nat)
    | CopiesOf(source: nat)

  function AddressIn(topic: Topic, e: Entry): seq<Address> {
    match topic
    case JoinAsked(o) => if e.Queued? && e.room == o && e.kind.Join? then [e.from] else []
    case JoinAnswered(o) => if e.Responded? && e.room == o then [e.to] else []
    case LeaveAsked(o) => if e.Queued? && e.room == o && e.kind.Leave? then [e.from] else []
    case LeaveDone(o) => if e.Left? && e.room == o then [e.who] else []
    case CopiesOf(source) => if e.Egress? && e.source == source then [e.to] else []
  }

  function Addresses(topic: Topic, log: seq<Entry>): seq<Address> {
    if |log| == 0 then [] else Addresses(topic, log[..|log| - 1]) + AddressIn(topic, log[|log| - 1])
  }

  /** The ingress messages queued for a room, or consumed by it. */
  function MessageIn(consumed: bool, o: nat, e: Entry): seq<(Address, Bytes)> {
    if consumed then if e.Consumed? && e.room == o then [(e.from, e.blob)] else []
    else if e.Queued? && e.room == o && e.kind.Ingress? then [(e.from, e.kind.blob)] else []
  }

  function Messages(consumed: bool, o: nat, log: seq<Entry>): seq<(Address, Bytes)> {
    if |log| == 0 then [] else Messages(consumed, o, log[..|log| - 1]) + MessageIn(consumed, o, log[|log| - 1])
  }

  /** The members of a room according to the answers it gave and the leaves it served. */
  function MembersAfter(members: set<Address>, o: nat, e: Entry): set<Address> {
    if e.Responded? && e.room == o && e.ok then members + {e.to}
    else if e.Left? && e.room == o then members - {e.who}
    else members
  }

  function Members(o: nat, log: seq<Entry>): set<Address> {
    if |log| == 0 then {} else MembersAfter(Members(o, log[..|log| - 1]), o, log[|log| - 1])
  }

  lemma Appended(log: seq<Entry>, e: Entry)
    ensures forall topic :: Addresses(topic, log + [e]) == Addresses(topic, log) + AddressIn(topic, e)
    ensures forall c, o :: Messages(c, o, log + [e]) == Messages(c, o, log) + MessageIn(c, o, e)
    ensures forall o :: Members(o, log + [e]) == MembersAfter(Members(o, log), o, e)
  {
    assert (log + [e])[..|log|] == log;
  }

  /** The room an entry is about exists. */
  predicate AboutRooms(n: nat, log: seq<Entry>) {
    forall k :: 0 <= k < |log| && !log[k].Refused? ==> log[k].room < n
  }

  lemma {:induction false} NoAddresses(n: nat, log: seq<Entry>, topic: Topic)
    requires AboutRooms(n, log) && !topic.CopiesOf? && n <= topic.o
    ensures Addresses(topic, log) == []
  {
    if |log| > 0 {
      NoAddresses(n, log[..|log| - 1], topic);
    }
  }

  lemma {:induction false} NoMessages(n: nat, log: seq<Entry>, consumed: bool, o: nat)
    requires AboutRooms(n, log) && n <= o
    ensures Messages(consumed, o, log) == []
    decreases |log|
  {
    if |log| > 0 {
      NoMessages(n, log[..|log| - 1], consumed, o);
    }
  }

  lemma {:induction false} NoMembers(n: nat, log: seq<Entry>, o: nat)
    requires AboutRooms(n, log) && n <= o
    ensures Members(o, log) == {}
    decreases |log|
  {
    if |log| > 0 {
      NoMembers(n, log[..|log| - 1], o);
    }
  }

  /** Nothing refers to a broadcast that has not started. */
  lemma {:induction false} NoCopiesYet(log: seq<Entry>, source: nat)
    requires forall k :: 0 <= k < |log| && log[k].Egress? ==> log[k].source < k
    requires |log| <= source
    ensures Addresses(CopiesOf(source), log) == []
  {
    if |log| > 0 {
      NoCopiesYet(log[..|log| - 1], source);
    }
  }

  /** A member was told so. */
  lemma {:induction false} MemberWasWelcomed(o: nat, log: seq<Entry>, c: Address) returns (j: nat)
    requires c in Members(o, log)
    ensures j < |log| && log[j].Responded? && log[j].room == o && log[j].to == c && log[j].ok
  {
    var n := |log| - 1;
    var e := log[n];
    if e.Responded? && e.room == o && e.ok && e.to == c {
      j := n;
    } else {
      j := MemberWasWelcomed(o, log[..n], c);
    }
  }

  /** Who must get a copy of the message consumed at `source`. */
  function Recipients(log: seq<Entry>, source: nat): set<Address>
    requires source < |log| && log[source].Consumed?
  {
    var members := Members(log[source].room, log[..source]);
    if log[source].from in members then members - {log[source].from} else {}
  }
}
