/**
 `noiseStream.send` calls Encrypt without a lock, from `send` and from
 `stateMachine` at once. Encrypt seals under the current nonce and then
 increments it, which is a load and a store; here each of the three is a step of
 its own. These theorems say exactly when the numbering that `NoiseStack` builds
 on survives.
 */
module NonceRace {
  import opened Wrappers
  import opened ReliableEndpoint

  /** Where a goroutine inside Encrypt is. */
  datatype Pc = HasSealed | HasLoaded(nonce: nat)

  datatype Ciphertext = Ciphertext(nonce: nat, packet: Packet)

  /** The shared cipher state: its counter, the goroutines inside Encrypt, and all it sealed, in order. */
  datatype Cipher = Cipher(n: nat, inside: map<nat, Pc>, sealed: seq<Ciphertext>)

  datatype Move = Seal(goroutine: nat, packet: Packet) | Load(goroutine: nat) | Store(goroutine: nat)

  predicate CanStep(s: Cipher, move: Move) {
    match move
    case Seal(g, _) => g !in s.inside
    case Load(g) => g in s.inside && s.inside[g].HasSealed?
    case Store(g) => g in s.inside && s.inside[g].HasLoaded?
  }

  function Next(s: Cipher, move: Move): Cipher
    requires CanStep(s, move)
  {
    match move
    case Seal(g, packet) => s.(inside := s.inside[g := HasSealed], sealed := s.sealed + [Ciphertext(s.n, packet)])
    case Load(g) => s.(inside := s.inside[g := HasLoaded(s.n)])
    case Store(g) => s.(n := s.inside[g].nonce + 1, inside := s.inside - {g})
  }

  const Unused: Cipher := Cipher(0, map[], [])

  function Execute(moves: seq<Move>): Option<Cipher>
    decreases |moves|
  {
    if |moves| == 0 then Some(Unused)
    else
      var last := moves[|moves| - 1];
      match Execute(moves[..|moves| - 1])
      case None => None
      case Some(s) => if CanStep(s, last) then Some(Next(s, last)) else None
  }

  /** Nobody calls Encrypt while another goroutine is inside it. */
  predicate OneAtATime(moves: seq<Move>)
    decreases |moves|
  {
    |moves| == 0 ||
    var front := moves[..|moves| - 1];
    OneAtATime(front) && (moves[|moves| - 1].Seal? ==> Execute(front).Some? && Execute(front).value.inside == map[])
  }

  /** The k-th ciphertext carries nonce k. */
  predicate Numbered(sealed: seq<Ciphertext>) {
    forall k :: 0 <= k < |sealed| ==> sealed[k].nonce == k
  }

  // ----- One at a time

  /** At most one goroutine is inside, and the counter lags by exactly that one. */
  predicate Orderly(s: Cipher) {
    && Numbered(s.sealed)
    && (s.inside == map[] ==> s.n == |s.sealed|)
    && (s.inside != map[] ==> s.n + 1 == |s.sealed|)
    && (forall g, h :: g in s.inside && h in s.inside ==> g == h)
    && (forall g :: g in s.inside && s.inside[g].HasLoaded? ==> s.inside[g].nonce == s.n)
  }

  lemma OrderlyStep(s: Cipher, move: Move)
    requires Orderly(s) && CanStep(s, move) && (move.Seal? ==> s.inside == map[])
    ensures Orderly(Next(s, move))
  {
    var s' := Next(s, move);
    match move
    case Store(g) =>
      assert g in s.inside;
      assert s'.inside == map[];
    case Seal(g, _) => assert g in s'.inside;
    case Load(g) => assert g in s'.inside;
  }

  lemma {:induction false} OrderlyRun(moves: seq<Move>, s: Cipher)
    requires Execute(moves) == Some(s) && OneAtATime(moves)
    ensures Orderly(s)
    decreases |moves|
  {
    if |moves| > 0 {
      var before := Execute(moves[..|moves| - 1]).value;
      OrderlyRun(moves[..|moves| - 1], before);
      OrderlyStep(before, moves[|moves| - 1]);
    }
  }

  // ----- Overlapping calls

  /** Ciphertext c reuses the nonce of the one before it, and all before it are numbered. */
  predicate ReusedAt(sealed: seq<Ciphertext>, c: nat) {
    0 < c < |sealed| && sealed[c].nonce == c - 1 && Numbered(sealed[..c])
  }

  /** A call that overlaps another one reuses its nonce. */
  lemma {:induction false} OverlapReuses(moves: seq<Move>, s: Cipher) returns (c: nat)
    requires Execute(moves) == Some(s) && !OneAtATime(moves)
    ensures ReusedAt(s.sealed, c)
    decreases |moves|
  {
    var front := moves[..|moves| - 1];
    var before := Execute(front).value;
    if OneAtATime(front) {
      OrderlyRun(front, before);
      c := |before.sealed|;
      assert s.sealed[..c] == before.sealed;
    } else {
      c := OverlapReuses(front, before);
      assert s.sealed[..c] == before.sealed[..c];
    }
  }

  /** Ciphertexts are numbered in the order they were made exactly when no two calls overlap. */
  lemma NumberedExactly(moves: seq<Move>, s: Cipher)
    requires Execute(moves) == Some(s)
    ensures Numbered(s.sealed) <==> OneAtATime(moves)
  {
    if OneAtATime(moves) {
      OrderlyRun(moves, s);
    } else {
      var c := OverlapReuses(moves, s);
    }
  }

  // ----- What the receiver sees

  function Plaintexts(sealed: seq<Ciphertext>): seq<Packet> {
    seq(|sealed|, k requires 0 <= k < |sealed| => sealed[k].packet)
  }

  /** The receiver can open these packets, in this order: its counter moves by one with each. */
  predicate Openable(sealed: seq<Ciphertext>, seen: seq<Packet>) {
    forall k :: 0 <= k < |seen| ==> Ciphertext(k, seen[k]) in sealed
  }

  /** Whatever arrives, the receiver sees a prefix of what was encrypted. */
  ghost predicate AlwaysPrefix(sealed: seq<Ciphertext>) {
    forall seen: seq<Packet> :: Openable(sealed, seen) ==> seen <= Plaintexts(sealed)
  }

  lemma NumberedIsPrefix(sealed: seq<Ciphertext>, seen: seq<Packet>)
    requires Numbered(sealed) && Openable(sealed, seen)
    ensures seen <= Plaintexts(sealed)
  {
    if |seen| > 0 {
      assert Ciphertext(|seen| - 1, seen[|seen| - 1]) in sealed;
    }
    forall k | 0 <= k < |seen| ensures seen[k] == Plaintexts(sealed)[k] {
      assert Ciphertext(k, seen[k]) in sealed;
    }
  }

  lemma ReuseBreaksPrefix(sealed: seq<Ciphertext>, c: nat)
    requires ReusedAt(sealed, c) && sealed[c].packet != sealed[c - 1].packet
    ensures !AlwaysPrefix(sealed)
  {
    var seen := Plaintexts(sealed)[..c - 1] + [sealed[c].packet];
    forall k | 0 <= k < |seen| ensures Ciphertext(k, seen[k]) in sealed {
      if k < c - 1 {
        assert sealed[..c][k].nonce == k;
        assert sealed[k] == Ciphertext(k, seen[k]);
      } else {
        assert sealed[c] == Ciphertext(k, seen[k]);
      }
    }
    assert Openable(sealed, seen) && seen[c - 1] != Plaintexts(sealed)[c - 1];
  }

  // ----- The two goroutines of a stream

  /** Goroutine 0 is in `send` and seals data, goroutine 1 is `stateMachine` and seals acknowledgements. */
  predicate InRole(goroutine: nat, packet: Packet) {
    if goroutine == 0 then packet.Data? else goroutine == 1 && packet.Ack?
  }

  predicate ByRole(moves: seq<Move>) {
    forall i :: 0 <= i < |moves| && moves[i].Seal? ==> InRole(moves[i].goroutine, moves[i].packet)
  }

  /** Whoever is inside sealed the last ciphertext. */
  lemma {:induction false} InsideSealedLast(moves: seq<Move>, s: Cipher, g: nat)
    requires Execute(moves) == Some(s) && OneAtATime(moves) && ByRole(moves) && g in s.inside
    ensures |s.sealed| > 0 && InRole(g, s.sealed[|s.sealed| - 1].packet)
    decreases |moves|
  {
    var front := moves[..|moves| - 1];
    var before := Execute(front).value;
    if g in before.inside {
      InsideSealedLast(front, before, g);
    }
  }

  /** The two packets under a nonce used twice are of different kinds, whatever was sent again. */
  lemma {:induction false} OverlapMixesKinds(moves: seq<Move>, s: Cipher) returns (c: nat)
    requires Execute(moves) == Some(s) && !OneAtATime(moves) && ByRole(moves)
    ensures ReusedAt(s.sealed, c) && s.sealed[c].packet != s.sealed[c - 1].packet
    decreases |moves|
  {
    var front := moves[..|moves| - 1];
    var before := Execute(front).value;
    if OneAtATime(front) {
      OrderlyRun(front, before);
      c := |before.sealed|;
      assert s.sealed[..c] == before.sealed;
      var g :| g in before.inside;
      InsideSealedLast(front, before, g);
      assert moves[|moves| - 1].goroutine !in before.inside;
    } else {
      c := OverlapMixesKinds(front, before);
      assert s.sealed[..c] == before.sealed[..c];
    }
  }

  lemma PrefixIfOneAtATime(moves: seq<Move>, s: Cipher)
    requires Execute(moves) == Some(s) && OneAtATime(moves)
    ensures AlwaysPrefix(s.sealed)
  {
    OrderlyRun(moves, s);
    forall seen: seq<Packet> | Openable(s.sealed, seen) ensures seen <= Plaintexts(s.sealed) {
      NumberedIsPrefix(s.sealed, seen);
    }
  }

  /**
   The receiver sees a prefix of what was encrypted if calls never overlap. For
   the two goroutines of a stream, only then; and for any goroutines, when no two
   consecutive packets are equal.
   */
  lemma PrefixExactly(moves: seq<Move>, s: Cipher)
    requires Execute(moves) == Some(s)
    ensures OneAtATime(moves) ==> AlwaysPrefix(s.sealed)
    ensures ByRole(moves) ==> (AlwaysPrefix(s.sealed) <==> OneAtATime(moves))
    ensures (forall k :: 0 < k < |s.sealed| ==> s.sealed[k].packet != s.sealed[k - 1].packet)
            ==> (AlwaysPrefix(s.sealed) <==> OneAtATime(moves))
  {
    if OneAtATime(moves) {
      PrefixIfOneAtATime(moves, s);
    } else {
      var c := OverlapReuses(moves, s);
      if s.sealed[c].packet != s.sealed[c - 1].packet {
        ReuseBreaksPrefix(s.sealed, c);
      }
      if ByRole(moves) {
        var d := OverlapMixesKinds(moves, s);
        ReuseBreaksPrefix(s.sealed, d);
      }
    }
  }

  /** `send` and `stateMachine` seal a packet and an ack under the same nonce. */
  lemma NonceReused() returns (s: Cipher)
    ensures Execute([Seal(0, Data(1, [])), Seal(1, Ack(1))]) == Some(s)
    ensures s.sealed == [Ciphertext(0, Data(1, [])), Ciphertext(0, Ack(1))] && !AlwaysPrefix(s.sealed)
  {
    var first, second := Seal(0, Data(1, [])), Seal(1, Ack(1));
    assert [first][..0] == [] && [first, second][..1] == [first];
    var s1 := Next(Unused, first);
    assert Execute([first]) == Some(s1);
    s := Next(s1, second);
    assert s.sealed[..1] == [Ciphertext(0, Data(1, []))];
    ReuseBreaksPrefix(s.sealed, 1);
  }
}
