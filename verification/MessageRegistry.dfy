/** The message registry and MultiProtoEncoder of network/encoding.go. */
module MessageRegistry {
  import opened Wrappers
  import opened Framing

  /** A reflect.Type. */
  type Type = string

  /** MessageID is a uint32. */
  type MessageID = n: nat | n < SIZE_MODULUS

  datatype Registry = Registry(types: map<MessageID, Type>, inv: map<Type, MessageID>)

  function Put(r: Registry, id: MessageID, t: Type): Registry {
    Registry(r.types[id := t], r.inv[t := id])
  }

  /** The registry after a history of RegisterMessage calls. */
  function After(puts: seq<(MessageID, Type)>): Registry {
    if |puts| == 0 then Registry(map[], map[])
    else
      var last := puts[|puts| - 1];
      Put(After(puts[..|puts| - 1]), last.0, last.1)
  }

  /** The two maps agree on a type. */
  predicate RoundTrips(r: Registry, t: Type) {
    t in r.inv && r.inv[t] in r.types && r.types[r.inv[t]] == t
  }

  /** Call i is the last one that registers t. */
  predicate LastFor(puts: seq<(MessageID, Type)>, t: Type, i: nat) {
    i < |puts| && puts[i].1 == t && forall j :: i < j < |puts| ==> puts[j].1 != t
  }

  predicate Rebound(puts: seq<(MessageID, Type)>, i: nat)
    requires i < |puts|
  {
    exists j :: i < j < |puts| && puts[j].0 == puts[i].0
  }

  /** A type comes back from its id exactly when that id was not given away after its last registration. */
  lemma {:induction false} RegistryExactly(puts: seq<(MessageID, Type)>, t: Type, i: nat)
    requires LastFor(puts, t, i)
    ensures t in After(puts).inv && After(puts).inv[t] == puts[i].0 && puts[i].0 in After(puts).types
    ensures RoundTrips(After(puts), t) <==> !Rebound(puts, i)
    decreases |puts|
  {
    var n := |puts| - 1;
    if i < n {
      var front := puts[..n];
      RegistryExactly(front, t, i);
      assert puts[n].1 != t;
      if puts[n].0 != puts[i].0 {
        assert Rebound(puts, i) ==> Rebound(front, i);
        assert Rebound(front, i) ==> Rebound(puts, i) by {
          if Rebound(front, i) {
            var j :| i < j < n && front[j].0 == front[i].0;
            assert puts[j].0 == puts[i].0;
          }
        }
      }
    }
  }

  /** Two registrations under one id: the first type no longer comes back. */
  lemma RebindingLosesAType() returns (puts: seq<(MessageID, Type)>)
    ensures |puts| == 2 && puts[0].0 == puts[1].0 && puts[0].1 != puts[1].1
    ensures puts[0].1 in After(puts).inv && !RoundTrips(After(puts), puts[0].1)
  {
    puts := [(10, "A"), (10, "B")];
    assert LastFor(puts, "A", 0);
    RegistryExactly(puts, "A", 0);
  }

  /** A type that was never registered is not found. */
  lemma {:induction false} UnregisteredIsMissing(puts: seq<(MessageID, Type)>, t: Type)
    ensures t in After(puts).inv <==> exists i :: 0 <= i < |puts| && puts[i].1 == t
  {
    if |puts| > 0 {
      var n := |puts| - 1;
      UnregisteredIsMissing(puts[..n], t);
      if i :| 0 <= i < n && puts[..n][i].1 == t {
        assert puts[i].1 == t;
      }
    }
  }

  // ----- The encoder

  datatype Message = Message(typ: Type, body: Octets)

  /** The protobuf codec of one type. */
  datatype Codec = Codec(encode: (Type, Octets) -> Octets, decode: (Type, Octets) -> Option<Octets>)

  ghost predicate Faithful(codec: Codec) {
    forall t, body :: codec.decode(t, codec.encode(t, body)) == Some(body)
  }

  function Marshal(r: Registry, codec: Codec, m: Message): Option<Octets> {
    if m.typ !in r.inv then None else Some(Header(r.inv[m.typ]) + codec.encode(m.typ, m.body))
  }

  function Unmarshal(r: Registry, codec: Codec, buff: Octets): Option<Message> {
    if |buff| < 4 then None
    else
      var id := Value(buff[..4]);
      if id >= SIZE_MODULUS || id !in r.types then None
      else
        match codec.decode(r.types[id], buff[4..])
        case None => None
        case Some(body) => Some(Message(r.types[id], body))
  }

  /** Marshal fails exactly for a type that was never registered, and otherwise leads with four bytes of its id. */
  lemma MarshalFailsExactly(puts: seq<(MessageID, Type)>, codec: Codec, m: Message)
    ensures Marshal(After(puts), codec, m).None? <==> forall i :: 0 <= i < |puts| ==> puts[i].1 != m.typ
    ensures Marshal(After(puts), codec, m).Some? ==>
              var buff := Marshal(After(puts), codec, m).value;
              |buff| >= 4 && Value(buff[..4]) == After(puts).inv[m.typ] && buff[4..] == codec.encode(m.typ, m.body)
  {
    UnregisteredIsMissing(puts, m.typ);
    if m.typ in After(puts).inv {
      var id := After(puts).inv[m.typ];
      HeaderRoundTrip(id);
      assert (Header(id) + codec.encode(m.typ, m.body))[..4] == Header(id);
    }
  }

  /** An id is known exactly when some registration gave it, and then leads to the type of the last one that did. */
  lemma {:induction false} TypeOfIdExactly(puts: seq<(MessageID, Type)>, id: MessageID)
    ensures id in After(puts).types <==> exists i :: 0 <= i < |puts| && puts[i].0 == id
    ensures forall i :: 0 <= i < |puts| && puts[i].0 == id && (forall j :: i < j < |puts| ==> puts[j].0 != id)
                        ==> id in After(puts).types && After(puts).types[id] == puts[i].1
    decreases |puts|
  {
    if |puts| > 0 {
      var front := puts[..|puts| - 1];
      TypeOfIdExactly(front, id);
      forall i | 0 <= i < |puts| && puts[i].0 == id && (forall j :: i < j < |puts| ==> puts[j].0 != id)
        ensures id in After(puts).types && After(puts).types[id] == puts[i].1
      {
        if i < |front| {
          assert front[i].0 == id;
          assert puts[|puts| - 1].0 != id;
        }
      }
    }
  }

  /** Unmarshal fails on a short buffer, an unknown id and a failed decode, and on nothing else. */
  lemma UnmarshalFailsExactly(puts: seq<(MessageID, Type)>, codec: Codec, buff: Octets)
    ensures |buff| < 4 ==> Unmarshal(After(puts), codec, buff).None?
    ensures |buff| >= 4 && (forall i :: 0 <= i < |puts| ==> puts[i].0 != Value(buff[..4]))
            ==> Unmarshal(After(puts), codec, buff).None?
    ensures forall i :: 0 <= i < |puts| && |buff| >= 4 && puts[i].0 == Value(buff[..4])
                        && (forall j :: i < j < |puts| ==> puts[j].0 != puts[i].0)
                        ==> match codec.decode(puts[i].1, buff[4..])
                            case None => Unmarshal(After(puts), codec, buff).None?
                            case Some(body) => Unmarshal(After(puts), codec, buff) == Some(Message(puts[i].1, body))
  {
    if |buff| >= 4 {
      TypeOfIdExactly(puts, Value(buff[..4]));
    }
  }

  lemma UnmarshalExactly(r: Registry, codec: Codec, m: Message)
    requires Faithful(codec) && m.typ in r.inv
    ensures Unmarshal(r, codec, Marshal(r, codec, m).value) == Some(m) <==> RoundTrips(r, m.typ)
  {
    var id := r.inv[m.typ];
    var buff := Marshal(r, codec, m).value;
    HeaderRoundTrip(id);
    assert buff[..4] == Header(id) && buff[4..] == codec.encode(m.typ, m.body);
    assert codec.decode(m.typ, codec.encode(m.typ, m.body)) == Some(m.body);
  }

  /** Over every history: Unmarshal undoes Marshal exactly for the types whose last id was not rebound. */
  lemma MarshalRoundTripExactly(puts: seq<(MessageID, Type)>, codec: Codec, m: Message, i: nat)
    requires Faithful(codec) && LastFor(puts, m.typ, i)
    ensures Marshal(After(puts), codec, m).Some?
    ensures Unmarshal(After(puts), codec, Marshal(After(puts), codec, m).value) == Some(m) <==> !Rebound(puts, i)
  {
    RegistryExactly(puts, m.typ, i);
    UnmarshalExactly(After(puts), codec, m);
  }

  class IdRegistry {
    var types: map<MessageID, Type>
    var inv: map<Type, MessageID>
    ghost var puts: seq<(MessageID, Type)>

    ghost predicate Valid()
      reads this
    {
      After(puts) == Registry(types, inv)
    }

    constructor ()
      ensures Valid() && puts == []
    {
      types, inv := map[], map[];
      puts := [];
    }

    method Register(id: MessageID, t: Type)
      requires Valid()
      modifies this
      ensures Valid() && puts == old(puts) + [(id, t)]
    {
      types := types[id := t];
      inv := inv[t := id];
      puts := puts + [(id, t)];
      assert puts[..|puts| - 1] == old(puts);
    }

    method GetId(t: Type) returns (id: Option<MessageID>)
      requires Valid()
      ensures id == if t in inv then Some(inv[t]) else None
      ensures id.Some? <==> exists i :: 0 <= i < |puts| && puts[i].1 == t
    {
      UnregisteredIsMissing(puts, t);
      id := if t in inv then Some(inv[t]) else None;
    }
  }
}
