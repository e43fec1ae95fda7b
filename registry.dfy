/*
 * The server's table of running games: a map from join code to session,
 * capped at three games, with codes drawn at random and sessions dropped
 * once they have been idle too long.
 */
module Registry {
  import opened Errors
  import opened Sessions
  import Games

  /** At most this many games run at once. */
  const MaxGames: nat := 3

  /** Join codes are this long. */
  const CodeLength: nat := 6

  /** Codes are drawn from the 26 upper-case ASCII letters followed by the
      10 decimal digits. */
  const AlphabetSize: nat := 26 + 10

  /** The `k`-th character of that alphabet. */
  function AlphabetChar(k: nat): char
    requires k < AlphabetSize
  {
    if k < 26 then ('A' as int + k) as char else ('0' as int + (k - 26)) as char
  }

  /** A character a join code may hold. */
  predicate IsCodeChar(ch: char)
  {
    'A' <= ch <= 'Z' || '0' <= ch <= '9'
  }

  /** The first `length` characters of a code, where `draw(i)` stands for
      the random pick of the i-th character from the alphabet. */
  function Code(draw: nat -> nat, length: nat): (code: string)
    ensures |code| == length
    ensures forall i :: 0 <= i < length ==> code[i] == AlphabetChar(draw(i) % AlphabetSize)
    ensures forall i :: 0 <= i < length ==> IsCodeChar(code[i])
  {
    if length == 0 then []
    else Code(draw, length - 1) + [AlphabetChar(draw(length - 1) % AlphabetSize)]
  }

  /** A fresh join code: six characters over A-Z and 0-9. */
  function GenerateCode(draw: nat -> nat): (code: string)
    ensures |code| == CodeLength && forall i :: 0 <= i < |code| ==> IsCodeChar(code[i])
  {
    Code(draw, CodeLength)
  }

  /** Where `ch` sits in the alphabet. */
  function CharIndex(ch: char): (k: nat)
    requires IsCodeChar(ch)
    ensures k < AlphabetSize && AlphabetChar(k) == ch
  {
    if 'A' <= ch <= 'Z' then (ch as int - 'A' as int) else 26 + (ch as int - '0' as int)
  }

  /** The draws that spell `code`. */
  function Spelling(code: string): nat -> nat
  {
    (i: nat) => if i < |code| && IsCodeChar(code[i]) then CharIndex(code[i]) else 0
  }

  /** Every six-character string over A-Z and 0-9 can come out of the
      generator: the alphabet is not narrower than the codes it yields. */
  lemma EveryCodeReachable(code: string)
    requires |code| == CodeLength && forall i :: 0 <= i < |code| ==> IsCodeChar(code[i])
    ensures GenerateCode(Spelling(code)) == code
  {
    CodeSpells(code, CodeLength);
    assert code[..CodeLength] == code;
  }

  lemma {:induction false} CodeSpells(code: string, n: nat)
    requires n <= |code| && forall i :: 0 <= i < |code| ==> IsCodeChar(code[i])
    ensures Code(Spelling(code), n) == code[..n]
  {
    if n > 0 {
      CodeSpells(code, n - 1);
      assert Spelling(code)(n - 1) == CharIndex(code[n - 1]);
      assert code[..n] == code[..n - 1] + [code[n - 1]];
    }
  }

  class GameRegistry {
    var games: map<string, GameSession>

    /** The cap is never exceeded. */
    predicate Valid()
      reads this
    {
      |games| <= MaxGames
    }

    /** An empty registry. */
    constructor ()
      ensures Valid() && games == map[]
    {
      games := map[];
    }

    /** A new game at time `now` under a code drawn by `draw`, unless three
        games already run. A code that collides with a running game replaces
        it, so the cap still holds. */
    method CreateGame(draw: nat -> nat, now: int) returns (r: Result<(string, GameSession)>)
      modifies this`games
      ensures |old(games)| >= MaxGames ==> r == Err(TooManyGames) && games == old(games)
      ensures |old(games)| < MaxGames ==>
        && r.Ok? && r.value.0 == GenerateCode(draw)
        && games == old(games)[r.value.0 := r.value.1]
        && fresh(r.value.1) && fresh(r.value.1.game.Repr) && r.value.1.Valid()
        && r.value.1.players == [] && r.value.1.connected == {} && r.value.1.lastActivity == now
        && JoinGame(r.value.0) == Ok(r.value.1)
      ensures old(Valid()) ==> Valid()
    {
      if |games| >= MaxGames {
        return Err(TooManyGames);
      }
      var code := GenerateCode(draw);
      var session := new GameSession(now);
      CapAfterInsert(games, code, session);
      games := games[code := session];
      return Ok((code, session));
    }

    /** The session behind `code`, unless there is none or it already has
        two connected players. Nothing changes. */
    function JoinGame(code: string): (r: Result<GameSession>)
      reads this, games.Values
      ensures code !in games <==> r == Err(InvalidCode)
      ensures r == Err(PlayerCountError) <==> code in games && |games[code].connected| >= 2
      ensures r.Ok? <==> code in games && |games[code].connected| < 2
      ensures r.Ok? ==> r.value == games[code]
    {
      if code !in games then Err(InvalidCode)
      else if |games[code].connected| >= 2 then Err(PlayerCountError)
      else Ok(games[code])
    }

    /** Deletes `code`, if it is still there. */
    method Drop(code: string)
      modifies this`games
      ensures games == old(games) - {code}
    {
      if code in games {
        games := games - {code};
      }
    }

    /** The codes whose sessions are expired at time `now`. */
    function ExpiredCodes(now: int): (codes: set<string>)
      reads this, games.Values, set s | s in games.Values :: s.game
      ensures forall c :: c in codes <==> c in games && games[c].IsExpired(now)
    {
      set c | c in games && games[c].IsExpired(now)
    }

    /** One pass of the clean-up loop at time `now`: the codes of expired
        sessions are collected first, then each is deleted. */
    method Sweep(now: int)
      modifies this`games
      ensures games == old(games) - old(ExpiredCodes(now))
      ensures old(Valid()) ==> Valid()
    {
      var expired := ExpiredCodes(now);
      var pending := expired;
      while pending != {}
        invariant pending <= expired
        invariant games.Keys == old(games).Keys - (expired - pending)
        invariant forall c :: c in games ==> games[c] == old(games)[c]
        decreases |pending|
      {
        var c :| c in pending;
        Drop(c);
        pending := pending - {c};
      }
      MapWithout(old(games), games, expired);
      if old(Valid()) {
        Games.SubsetSize(games.Keys, old(games).Keys);
      }
    }
  }

  /** Inserting under one code adds at most one entry. */
  lemma CapAfterInsert<K, V>(m: map<K, V>, k: K, v: V)
    requires |m| < MaxGames
    ensures |m[k := v]| <= MaxGames
  {
    if k in m {
      assert m[k := v].Keys == m.Keys;
    } else {
      assert m[k := v].Keys == m.Keys + {k};
    }
  }

  /** A map that keeps the keys of `m` outside `gone`, with their values,
      is `m` without `gone`. */
  lemma MapWithout<K, V>(m: map<K, V>, kept: map<K, V>, gone: set<K>)
    requires kept.Keys == m.Keys - gone
    requires forall k :: k in kept ==> kept[k] == m[k]
    ensures kept == m - gone
  {
  }
}
