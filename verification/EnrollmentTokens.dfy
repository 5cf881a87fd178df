/** internal/db/enrollment_tokens.go: every run of Create, Consume and Revoke. */
module EnrollmentTokens {
  import opened Common
  import opened Tables

  datatype Op =
    | Create(hash: string, id: nat, creator: nat, ttl: int, now: Time)
    | Consume(hash: string, deviceId: string, now: Time)
    | Revoke(id: nat, now: Time)

  function Result(tokens: TokenTable, op: Op): Option<TokenTable> {
    match op
    case Create(hash, id, creator, ttl, now) => InsertToken(tokens, hash, id, creator, now, ttl)
    case Consume(hash, deviceId, now) => ConsumeToken(tokens, hash, deviceId, now)
    case Revoke(id, now) => RevokeToken(tokens, id, now)
  }

  function After(ops: seq<Op>): TokenTable {
    if ops == [] then map[]
    else
      var t := After(ops[..|ops| - 1]);
      var r := Result(t, ops[|ops| - 1]);
      if r.Some? then r.value else t
  }

  /** How a token ended: used by a device, or revoked. */
  datatype End = UsedBy(deviceId: string, at: Time) | RevokedAt(at: Time)

  /** The end op gives the token with this hash, if it is accepted on table t. */
  function EndedBy(t: TokenTable, op: Op, hash: string): seq<End> {
    match op
    case Consume(h, d, now) => if h == hash && Result(t, op).Some? then [UsedBy(d, now)] else []
    case Revoke(id, now) =>
      if hash in t && t[hash].id == id && t[hash].consumedAt.None? then [RevokedAt(now)] else []
    case Create(_, _, _, _, _) => []
  }

  /** The accepted operations that ended the token with this hash, oldest first. */
  function Ends(ops: seq<Op>, hash: string): seq<End> {
    if ops == [] then []
    else Ends(ops[..|ops| - 1], hash) + EndedBy(After(ops[..|ops| - 1]), ops[|ops| - 1], hash)
  }

  /** The token row says how it ended, and nothing else happened to it. */
  predicate Tells(t: Token, ends: seq<End>) {
    if ends == [] then
      t.consumedAt.None? && t.consumedBy.None?
    else
      |ends| == 1 &&
      match ends[0]
      case UsedBy(d, at) => t.consumedAt == Some(at) && t.consumedBy == Some(d) && at < t.expiresAt
      case RevokedAt(at) => t.consumedAt == Some(at) && t.consumedBy.None?
  }

  lemma OpTells(t: TokenTable, ends: seq<End>, op: Op, hash: string)
    requires if hash in t then Tells(t[hash], ends) else ends == []
    ensures var r := Result(t, op); var t' := if r.Some? then r.value else t;
            if hash in t' then Tells(t'[hash], ends + EndedBy(t, op, hash)) else ends + EndedBy(t, op, hash) == []
  {
  }

  /**
   * Single use, for all runs: a token is ended at most once, by the one
   * accepted Consume (before its expiry) or the one accepted Revoke; its row
   * records which, so a consumed token without a device id is exactly a
   * revoked one. A hash that was never created has no end.
   */
  lemma {:induction false} TokenEndsOnce(ops: seq<Op>, hash: string)
    ensures |Ends(ops, hash)| <= 1
    ensures if hash in After(ops) then Tells(After(ops)[hash], Ends(ops, hash)) else Ends(ops, hash) == []
    ensures hash in After(ops) ==>
              (After(ops)[hash].consumedAt.Some? && After(ops)[hash].consumedBy.None?
               <==> |Ends(ops, hash)| == 1 && Ends(ops, hash)[0].RevokedAt?)
  {
    if ops != [] {
      var k := |ops| - 1;
      TokenEndsOnce(ops[..k], hash);
      OpTells(After(ops[..k]), Ends(ops[..k], hash), ops[k], hash);
    }
  }

  /** Once ended, a token row never changes again, and no later operation on it is accepted. */
  lemma {:induction false} EndIsFinal(ops: seq<Op>, more: seq<Op>, hash: string)
    requires hash in After(ops) && After(ops)[hash].consumedAt.Some?
    ensures hash in After(ops + more) && After(ops + more)[hash] == After(ops)[hash]
    ensures Ends(ops + more, hash) == Ends(ops, hash)
  {
    if more == [] {
      assert ops + more == ops;
    } else {
      var k := |more| - 1;
      EndIsFinal(ops, more[..k], hash);
      assert (ops + more)[..|ops + more| - 1] == ops + more[..k];
      assert (ops + more)[|ops + more| - 1] == more[k];
    }
  }

  /** Of two Consume calls with one token, at most one is accepted. */
  lemma SecondConsumeFails(ops: seq<Op>, hash: string, d: string, t1: Time, between: seq<Op>, e: string, t2: Time)
    requires Result(After(ops), Consume(hash, d, t1)).Some?
    ensures Result(After(ops + [Consume(hash, d, t1)] + between), Consume(hash, e, t2)).None?
  {
    var ops1 := ops + [Consume(hash, d, t1)];
    assert ops1[..|ops1| - 1] == ops;
    EndIsFinal(ops1, between, hash);
  }

  // ---------- what was minted ----------

  /** The first Create with this hash: the one that is accepted. */
  function Mint(ops: seq<Op>, hash: string): (r: Option<Op>)
    ensures r.Some? ==> r.value.Create? && r.value.hash == hash
  {
    if ops == [] then None
    else
      var earlier := Mint(ops[..|ops| - 1], hash);
      var op := ops[|ops| - 1];
      if earlier.Some? then earlier
      else if op.Create? && op.hash == hash then Some(op)
      else None
  }

  lemma {:induction false} MintIsIn(ops: seq<Op>, hash: string) returns (i: nat)
    requires Mint(ops, hash).Some?
    ensures i < |ops| && ops[i] == Mint(ops, hash).value
  {
    var k := |ops| - 1;
    if Mint(ops[..k], hash).Some? {
      i := MintIsIn(ops[..k], hash);
    } else {
      i := k;
    }
  }

  /**
   * A row is there if and only if its hash was minted, for ever; it has the
   * id and the maker then given, and expires its time to live after that.
   */
  lemma {:induction false} RowsTellTheirMint(ops: seq<Op>, hash: string)
    ensures hash in After(ops) <==> Mint(ops, hash).Some?
    ensures hash in After(ops) ==>
              var t, made := After(ops)[hash], Mint(ops, hash).value;
              && t.id == made.id && t.createdBy == made.creator && t.createdAt == made.now
              && t.expiresAt == made.now + made.ttl
  {
    if ops != [] {
      RowsTellTheirMint(ops[..|ops| - 1], hash);
    }
  }

  // ---------- what each operation is accepted for ----------

  /**
   * A consumption is accepted if and only if the hash was minted, the token
   * has not ended, and its time to live has not run out.
   */
  lemma ConsumeAcceptedIff(ops: seq<Op>, hash: string, d: string, now: Time)
    ensures Result(After(ops), Consume(hash, d, now)).Some? <==>
            var made := Mint(ops, hash);
            made.Some? && Ends(ops, hash) == [] && now < made.value.now + made.value.ttl
  {
    RowsTellTheirMint(ops, hash);
    TokenEndsOnce(ops, hash);
  }

  /** A revocation marks the open rows with its id and leaves every other row alone. */
  lemma RevokeMarksItsId(tokens: TokenTable, id: nat, now: Time)
    ensures var r := RevokeToken(tokens, id, now);
            && (r.Some? <==> exists h :: h in tokens && tokens[h].id == id && tokens[h].consumedAt.None?)
            && (r.Some? ==> r.value.Keys == tokens.Keys)
            && (r.Some? ==> forall h :: h in tokens ==>
                  r.value[h] == if tokens[h].id == id && tokens[h].consumedAt.None?
                                then tokens[h].(consumedAt := Some(now)) else tokens[h])
  {
  }

  /** Token ids are a serial column. */
  predicate DistinctIds(ops: seq<Op>) {
    forall i, j :: 0 <= i < j < |ops| && ops[i].Create? && ops[j].Create? ==> ops[i].id != ops[j].id
  }

  lemma IdsTellTokensApart(ops: seq<Op>, hash: string, other: string)
    requires DistinctIds(ops) && hash in After(ops) && other in After(ops) && other != hash
    ensures After(ops)[other].id != After(ops)[hash].id
  {
    RowsTellTheirMint(ops, hash);
    RowsTellTheirMint(ops, other);
    var i := MintIsIn(ops, hash);
    var j := MintIsIn(ops, other);
    assert i != j;
  }

  /**
   * Under distinct ids a revocation ends the token minted with its id and no
   * other: it is accepted if and only if that token has not ended, and then
   * marks its row revoked now and leaves every other row as it was.
   */
  lemma {:induction false} RevokeEndsItsToken(ops: seq<Op>, hash: string, now: Time)
    requires DistinctIds(ops) && Mint(ops, hash).Some?
    ensures hash in After(ops)
    ensures var m, op := After(ops), Revoke(Mint(ops, hash).value.id, now);
            && (Result(m, op).Some? <==> Ends(ops, hash) == [])
            && After(ops + [op]) == (if Ends(ops, hash) == [] then m[hash := m[hash].(consumedAt := Some(now))] else m)
            && Ends(ops + [op], hash) == (if Ends(ops, hash) == [] then [RevokedAt(now)] else Ends(ops, hash))
            && forall h :: h != hash ==> Ends(ops + [op], h) == Ends(ops, h)
  {
    var op := Revoke(Mint(ops, hash).value.id, now);
    RowsTellTheirMint(ops, hash);
    TokenEndsOnce(ops, hash);
    RevokeMarksItsId(After(ops), op.id, now);
    assert (ops + [op])[..|ops|] == ops;
    forall h | h in After(ops) && h != hash
      ensures After(ops)[h].id != op.id
    {
      IdsTellTokensApart(ops, hash, h);
    }
  }

  /** An id that was never minted revokes nothing. */
  lemma UnknownIdRevokesNothing(ops: seq<Op>, id: nat, now: Time)
    requires forall i :: 0 <= i < |ops| && ops[i].Create? ==> ops[i].id != id
    ensures Result(After(ops), Revoke(id, now)).None?
  {
    RevokeMarksItsId(After(ops), id, now);
    forall h | h in After(ops)
      ensures After(ops)[h].id != id
    {
      RowsTellTheirMint(ops, h);
      var j := MintIsIn(ops, h);
    }
  }
}
