/*
 * The text protocol: a command line is split on whitespace, the first word
 * chooses the command (in any letter case), and the remaining words are its
 * arguments. Rows and columns are decimal integers with an optional sign.
 */
module CommandParser {
  import opened Errors
  import opened Text
  import opened Commands

  // ---------------------------------------------------------------------
  // Words

  /** The number of non-whitespace characters at the front of `s`. */
  function WordLength(s: string): (n: nat)
    ensures n <= |s| && NoSpace(s[..n]) && (n == |s| || IsSpace(s[n]))
  {
    if s == [] || IsSpace(s[0]) then 0
    else
      var m := WordLength(s[1..]);
      assert s[..m + 1] == [s[0]] + s[1..][..m];
      m + 1
  }

  /** The words of `s`, as str.split() with no separator returns them: the
      maximal runs of non-whitespace characters, in order. Leading and
      trailing whitespace therefore never matters. */
  function Split(s: string): (words: seq<string>)
    ensures forall i :: 0 <= i < |words| ==> |words[i]| > 0 && NoSpace(words[i])
    ensures words == [] <==> forall i :: 0 <= i < |s| ==> IsSpace(s[i])
    decreases |s|
  {
    if s == [] then []
    else if IsSpace(s[0]) then
      var rest := Split(s[1..]);
      assert forall i :: 1 <= i < |s| ==> s[i] == s[1..][i - 1];
      rest
    else
      var n := WordLength(s);
      [s[..n]] + Split(s[n..])
  }

  /** The words joined by single spaces: the inverse of Split on words that
      are non-empty and hold no whitespace. */
  function Unwords(words: seq<string>): string
  {
    if words == [] then ""
    else if |words| == 1 then words[0]
    else words[0] + " " + Unwords(words[1..])
  }

  lemma WordThenSpace(w: string, rest: string)
    requires |w| > 0 && NoSpace(w)
    ensures WordLength(w + rest) >= |w|
    ensures rest != [] && IsSpace(rest[0]) ==> WordLength(w + rest) == |w|
    ensures rest == [] ==> WordLength(w + rest) == |w|
  {
    var n := WordLength(w + rest);
    if n > |w| {
      assert (w + rest)[..n][|w|] == rest[0];
    }
  }

  lemma {:induction false} SplitUnwords(words: seq<string>)
    requires forall i :: 0 <= i < |words| ==> |words[i]| > 0 && NoSpace(words[i])
    ensures Split(Unwords(words)) == words
    decreases |words|
  {
    if words == [] {
    } else if |words| == 1 {
      var w := words[0];
      WordThenSpace(w, "");
      assert w + "" == w;
      assert w[..|w|] == w && w[|w|..] == [];
    } else {
      var w := words[0];
      var tail := " " + Unwords(words[1..]);
      var s := Unwords(words);
      assert s == w + tail;
      WordThenSpace(w, tail);
      assert s[..|w|] == w && s[|w|..] == tail;
      assert Split(s) == [w] + Split(tail);
      assert tail[1..] == Unwords(words[1..]);
      assert Split(tail) == Split(Unwords(words[1..]));
      SplitUnwords(words[1..]);
      assert words == [w] + words[1..];
    }
  }

  /** Whether every character of `s` is whitespace. */
  predicate AllSpace(s: string)
  {
    forall i :: 0 <= i < |s| ==> IsSpace(s[i])
  }

  /** Whether each of `words` is non-empty and free of whitespace. */
  predicate AreWords(words: seq<string>)
  {
    forall i :: 0 <= i < |words| ==> |words[i]| > 0 && NoSpace(words[i])
  }

  /** Whitespace gaps around `words`: one before each word and one after the
      last, where the gaps between two words are never empty. */
  predicate Gaps(gaps: seq<string>, words: seq<string>)
  {
    && |gaps| == |words| + 1
    && (forall i :: 0 <= i < |gaps| ==> AllSpace(gaps[i]))
    && (forall i :: 0 < i < |words| ==> |gaps[i]| > 0)
  }

  /** The words with the gaps written around and between them. */
  function Interleave(gaps: seq<string>, words: seq<string>): string
    requires |gaps| == |words| + 1
  {
    if words == [] then gaps[0] else gaps[0] + words[0] + Interleave(gaps[1..], words[1..])
  }

  /** Leading whitespace never changes the words. */
  lemma {:induction false} SplitSpaces(g: string, rest: string)
    requires AllSpace(g)
    ensures Split(g + rest) == Split(rest)
    decreases |g|
  {
    if g != [] {
      var line := g + rest;
      assert line[0] == g[0] && IsSpace(g[0]);
      assert line[1..] == g[1..] + rest;
      assert Split(line) == Split(line[1..]);
      SplitSpaces(g[1..], rest);
    } else {
      assert g + rest == rest;
    }
  }

  /** A word followed by whitespace or by nothing is the first word. */
  lemma SplitWord(w: string, rest: string)
    requires |w| > 0 && NoSpace(w) && (rest == [] || IsSpace(rest[0]))
    ensures Split(w + rest) == [w] + Split(rest)
  {
    WordThenSpace(w, rest);
    var s := w + rest;
    assert s[..|w|] == w && s[|w|..] == rest;
  }

  /** However the words are spaced, splitting gives exactly the words. */
  lemma {:induction false} SplitInterleave(gaps: seq<string>, words: seq<string>)
    requires AreWords(words) && Gaps(gaps, words)
    ensures Split(Interleave(gaps, words)) == words
    decreases |words|
  {
    if words == [] {
      SplitSpaces(gaps[0], "");
      assert gaps[0] + "" == gaps[0];
    } else {
      var rest := Interleave(gaps[1..], words[1..]);
      GapsTail(gaps, words);
      SplitInterleave(gaps[1..], words[1..]);
      RestSpaced(gaps[1..], words[1..]);
      SplitWord(words[0], rest);
      SplitSpaces(gaps[0], words[0] + rest);
      assert Interleave(gaps, words) == gaps[0] + (words[0] + rest);
      assert words == [words[0]] + words[1..];
    }
  }

  /** Dropping the first gap and the first word leaves gaps around the
      remaining words. */
  lemma GapsTail(gaps: seq<string>, words: seq<string>)
    requires AreWords(words) && Gaps(gaps, words) && words != []
    ensures AreWords(words[1..]) && Gaps(gaps[1..], words[1..])
    ensures words[1..] != [] ==> |gaps[1..][0]| > 0
  {
  }

  /** A line whose first gap is non-empty, or which has no words, is empty
      or starts with whitespace. */
  lemma RestSpaced(gaps: seq<string>, words: seq<string>)
    requires Gaps(gaps, words) && (words != [] ==> |gaps[0]| > 0)
    ensures Interleave(gaps, words) == [] || IsSpace(Interleave(gaps, words)[0])
  {
    if words != [] {
      assert Interleave(gaps, words)[0] == gaps[0][0];
    }
  }

  /** Extra whitespace in front of the first gap is written in front of
      the line, and the gaps stay gaps. */
  lemma WidenFirstGap(x: string, gaps: seq<string>, words: seq<string>)
    requires AllSpace(x) && Gaps(gaps, words)
    ensures Gaps([x + gaps[0]] + gaps[1..], words)
    ensures Interleave([x + gaps[0]] + gaps[1..], words) == x + Interleave(gaps, words)
  {
    var wider := [x + gaps[0]] + gaps[1..];
    assert wider[1..] == gaps[1..];
    assert forall i :: 0 < i < |wider| ==> wider[i] == gaps[i];
  }

  /** A word in front of a line whose first gap is whitespace, or which has
      no words, is a line with an empty first gap. */
  lemma PrefixWord(w: string, gaps: seq<string>, words: seq<string>)
    requires Gaps(gaps, words) && (words != [] ==> |gaps[0]| > 0)
    ensures Gaps([""] + gaps, [w] + words)
    ensures Interleave([""] + gaps, [w] + words) == w + Interleave(gaps, words)
  {
    var longer := [""] + gaps;
    assert longer[1..] == gaps && ([w] + words)[1..] == words;
    assert forall i :: 0 < i < |longer| ==> longer[i] == gaps[i - 1];
  }

  /** Every line is its own words with whitespace gaps: together with
      SplitInterleave, this pins Split down on every input. */
  lemma {:induction false} SplitGaps(s: string) returns (gaps: seq<string>)
    ensures Gaps(gaps, Split(s)) && Interleave(gaps, Split(s)) == s
    ensures s != [] && IsSpace(s[0]) ==> |gaps[0]| > 0
    decreases |s|
  {
    if s == [] {
      gaps := [""];
    } else if IsSpace(s[0]) {
      var g := SplitGaps(s[1..]);
      gaps := SpaceFirstGaps(s, g);
    } else {
      var n := WordLength(s);
      assert n > 0;
      var g := SplitGaps(s[n..]);
      gaps := WordFirstGaps(s, g);
    }
  }

  /** The gaps of a line that starts with whitespace: that character joins
      the first gap of the rest of the line. */
  lemma SpaceFirstGaps(s: string, g: seq<string>) returns (gaps: seq<string>)
    requires s != [] && IsSpace(s[0])
    requires Gaps(g, Split(s[1..])) && Interleave(g, Split(s[1..])) == s[1..]
    ensures Gaps(gaps, Split(s)) && Interleave(gaps, Split(s)) == s && |gaps[0]| > 0
  {
    gaps := [[s[0]] + g[0]] + g[1..];
    assert Split(s) == Split(s[1..]);
    assert AllSpace([s[0]]);
    WidenFirstGap([s[0]], g, Split(s));
    assert s == [s[0]] + s[1..];
  }

  /** The gaps of a line that starts with a word: an empty first gap, then
      the gaps of the rest of the line. */
  lemma WordFirstGaps(s: string, g: seq<string>) returns (gaps: seq<string>)
    requires s != [] && !IsSpace(s[0])
    requires Gaps(g, Split(s[WordLength(s)..])) && Interleave(g, Split(s[WordLength(s)..])) == s[WordLength(s)..]
    requires s[WordLength(s)..] != [] && IsSpace(s[WordLength(s)..][0]) ==> |g[0]| > 0
    ensures Gaps(gaps, Split(s)) && Interleave(gaps, Split(s)) == s
  {
    var n := WordLength(s);
    var rest := s[n..];
    gaps := [""] + g;
    assert Split(s) == [s[..n]] + Split(rest);
    if Split(rest) != [] {
      assert rest != [] && IsSpace(rest[0]);
    }
    PrefixWord(s[..n], g, Split(rest));
    assert s == s[..n] + rest;
  }

  // ---------------------------------------------------------------------
  // Integers

  predicate IsDigit(ch: char)
  {
    '0' <= ch <= '9'
  }

  predicate AllDigits(s: string)
  {
    forall i :: 0 <= i < |s| ==> IsDigit(s[i])
  }

  /** The value of a run of decimal digits. */
  function DigitsValue(s: string): (n: nat)
    requires AllDigits(s)
    decreases |s|
  {
    if s == [] then 0
    else DigitsValue(s[..|s| - 1]) * 10 + (s[|s| - 1] as int - '0' as int)
  }

  function DigitChar(d: nat): (ch: char)
    requires d < 10
    ensures IsDigit(ch) && ch as int - '0' as int == d
  {
    ('0' as int + d) as char
  }

  /** The shortest decimal spelling of `n`. */
  function NatToString(n: nat): (s: string)
    ensures |s| > 0 && AllDigits(s)
  {
    if n < 10 then [DigitChar(n)] else NatToString(n / 10) + [DigitChar(n % 10)]
  }

  /** The decimal spelling of `n`, with a minus sign when negative. */
  function IntToString(n: int): (s: string)
    ensures |s| > 0 && NoSpace(s)
  {
    var digits := if n < 0 then "-" + NatToString(-n) else NatToString(n);
    assert forall i :: 0 <= i < |digits| ==> digits[i] == '-' || IsDigit(digits[i]);
    digits
  }

  /** An integer argument: an optional '+' or '-' followed by at least one
      decimal digit; anything else is not an integer. */
  function ParseInt(token: string): (r: Result<int>)
    ensures r.Err? ==> r == Err(NotAnInteger(token))
    ensures r.Ok? <==> (|token| > 0 && AllDigits(token))
                       || (|token| > 1 && (token[0] == '+' || token[0] == '-') && AllDigits(token[1..]))
    ensures r.Ok? && AllDigits(token) ==> r.value == DigitsValue(token)
    ensures r.Ok? && !AllDigits(token) ==>
      r.value == if token[0] == '-' then -(DigitsValue(token[1..]) as int) else DigitsValue(token[1..])
  {
    if |token| > 1 && (token[0] == '-' || token[0] == '+') && AllDigits(token[1..]) then
      var magnitude: int := DigitsValue(token[1..]);
      Ok(if token[0] == '-' then -magnitude else magnitude)
    else if |token| > 0 && AllDigits(token) then
      Ok(DigitsValue(token))
    else
      Err(NotAnInteger(token))
  }

  lemma {:induction false} DigitsOfNat(n: nat)
    ensures DigitsValue(NatToString(n)) == n
  {
    if n >= 10 {
      var s := NatToString(n);
      assert s[..|s| - 1] == NatToString(n / 10);
      DigitsOfNat(n / 10);
    }
  }

  /** Every integer reads back as itself. */
  lemma ParseIntToString(n: int)
    ensures ParseInt(IntToString(n)) == Ok(n)
  {
    DigitsOfNat(if n < 0 then -n else n);
    if n < 0 {
      assert IntToString(n)[1..] == NatToString(-n);
    }
  }

  // ---------------------------------------------------------------------
  // Commands

  /** The command named by an already split line. The keyword is compared
      after lower-casing; place takes exactly four arguments and fire exactly
      two, while start ignores whatever follows it. Row then column are read
      as integers, and the orientation is horizontal exactly when it is "h"
      in either case. */
  function ParseWords(parts: seq<string>): (r: Result<Command>)
    ensures parts == [] <==> r == Err(EmptyCommand)
    ensures parts != [] && Lower(parts[0]) == "place" && |parts| != 5 ==> r == Err(PlaceUsage)
    ensures parts != [] && Lower(parts[0]) == "fire" && |parts| != 3 ==> r == Err(FireUsage)
    ensures parts != [] && Lower(parts[0]) == "start" ==> r == Ok(StartGameCommand)
    ensures parts != [] && Lower(parts[0]) !in {"place", "fire", "start"} ==> r == Err(UnknownCommand(parts[0]))
    ensures parts != [] && Lower(parts[0]) == "place" && |parts| == 5 ==>
      && (ParseInt(parts[2]).Err? ==> r == Err(NotAnInteger(parts[2])))
      && (ParseInt(parts[2]).Ok? && ParseInt(parts[3]).Err? ==> r == Err(NotAnInteger(parts[3])))
      && (ParseInt(parts[2]).Ok? && ParseInt(parts[3]).Ok? ==> r.Ok? && r.value.PlaceShipCommand?)
    ensures parts != [] && Lower(parts[0]) == "fire" && |parts| == 3 ==>
      && (ParseInt(parts[1]).Err? ==> r == Err(NotAnInteger(parts[1])))
      && (ParseInt(parts[1]).Ok? && ParseInt(parts[2]).Err? ==> r == Err(NotAnInteger(parts[2])))
      && (ParseInt(parts[1]).Ok? && ParseInt(parts[2]).Ok? ==> r.Ok? && r.value.FireCommand?)
    ensures r.Ok? && r.value.PlaceShipCommand? ==>
      && |parts| == 5 && r.value.shipName == parts[1]
      && ParseInt(parts[2]) == Ok(r.value.start.0) && ParseInt(parts[3]) == Ok(r.value.start.1)
      && (r.value.horizontal <==> parts[4] == "h" || parts[4] == "H")
    ensures r.Ok? && r.value.FireCommand? ==>
      |parts| == 3 && ParseInt(parts[1]) == Ok(r.value.coord.0) && ParseInt(parts[2]) == Ok(r.value.coord.1)
  {
    if parts == [] then Err(EmptyCommand)
    else
      var keyword := Lower(parts[0]);
      if keyword == "place" then
        if |parts| != 5 then Err(PlaceUsage)
        else
          var row := ParseInt(parts[2]);
          if row.Err? then Err(row.error)
          else
            var col := ParseInt(parts[3]);
            if col.Err? then Err(col.error)
            else
              HorizontalIff(parts[4]);
              Ok(PlaceShipCommand(parts[1], (row.value, col.value), Lower(parts[4]) == "h"))
      else if keyword == "fire" then
        if |parts| != 3 then Err(FireUsage)
        else
          var row := ParseInt(parts[1]);
          if row.Err? then Err(row.error)
          else
            var col := ParseInt(parts[2]);
            if col.Err? then Err(col.error)
            else Ok(FireCommand((row.value, col.value)))
      else if keyword == "start" then Ok(StartGameCommand)
      else Err(UnknownCommand(parts[0]))
  }

  /** A line of input as a command, or why it is not one. */
  function ParseCommand(raw: string): (r: Result<Command>)
    ensures r == Err(EmptyCommand) <==> forall i :: 0 <= i < |raw| ==> IsSpace(raw[i])
  {
    ParseWords(Split(raw))
  }

  /** The command a line names depends only on its words: any spacing of
      the same words, leading and trailing whitespace included, parses
      alike. */
  lemma ParseSpaced(gaps: seq<string>, words: seq<string>)
    requires AreWords(words) && Gaps(gaps, words)
    ensures ParseCommand(Interleave(gaps, words)) == ParseWords(words)
  {
    SplitInterleave(gaps, words);
  }

  /** An upper-case placement with a signed and a zero-padded coordinate,
      written with leading, trailing, repeated and tab whitespace, as the
      line "  PLACE Cruiser\t+3  04 H ". */
  lemma ParsePlaceExample()
    ensures ParseCommand(Interleave(["  ", " ", "\t", "  ", " ", " "], ["PLACE", "Cruiser", "+3", "04", "H"]))
            == Ok(PlaceShipCommand("Cruiser", (3, 4), true))
  {
    SplitInterleave(["  ", " ", "\t", "  ", " ", " "], ["PLACE", "Cruiser", "+3", "04", "H"]);
    PlaceExampleWords();
  }

  lemma PlaceExampleWords()
    ensures ParseWords(["PLACE", "Cruiser", "+3", "04", "H"]) == Ok(PlaceShipCommand("Cruiser", (3, 4), true))
  {
    assert Lower("PLACE") == "place";
    assert "+3"[1..] == "3" && AllDigits("3");
    assert DigitsValue("3") == 3;
    assert ParseInt("+3") == Ok(3);
    assert "04"[..1] == "0";
    assert DigitsValue("04") == 4;
    assert ParseInt("04") == Ok(4);
    HorizontalIff("H");
  }

  lemma HorizontalIff(t: string)
    ensures Lower(t) == "h" <==> t == "h" || t == "H"
  {
    if Lower(t) == "h" {
      assert |t| == 1 && LowerChar(t[0]) == 'h';
      assert t == [t[0]];
    }
  }

  // ---------------------------------------------------------------------
  // Round trip

  /** The canonical spelling of a command. */
  function Format(command: Command): string
  {
    match command
    case PlaceShipCommand(name, start, horizontal) =>
      Unwords(["place", name, IntToString(start.0), IntToString(start.1), if horizontal then "h" else "v"])
    case FireCommand(coord) =>
      Unwords(["fire", IntToString(coord.0), IntToString(coord.1)])
    case StartGameCommand =>
      "start"
  }

  /** Whether a command can be spelt: a ship name must be one word. */
  predicate Spellable(command: Command)
  {
    command.PlaceShipCommand? ==> |command.shipName| > 0 && NoSpace(command.shipName)
  }

  /** Parsing the spelling of a command gives the command back. */
  lemma ParseFormat(command: Command)
    requires Spellable(command)
    ensures ParseCommand(Format(command)) == Ok(command)
  {
    match command
    case PlaceShipCommand(name, start, horizontal) => ParseFormatPlace(name, start.0, start.1, horizontal);
    case FireCommand(coord) => ParseFormatFire(coord.0, coord.1);
    case StartGameCommand =>
      SplitUnwords(["start"]);
      assert Lower("start") == "start";
  }

  lemma ParseFormatPlace(name: string, row: int, col: int, horizontal: bool)
    requires |name| > 0 && NoSpace(name)
    ensures ParseCommand(Format(PlaceShipCommand(name, (row, col), horizontal))) == Ok(PlaceShipCommand(name, (row, col), horizontal))
  {
    var words := ["place", name, IntToString(row), IntToString(col), if horizontal then "h" else "v"];
    SplitUnwords(words);
    PlaceWords(name, row, col, horizontal);
  }

  lemma PlaceWords(name: string, row: int, col: int, horizontal: bool)
    ensures ParseWords(["place", name, IntToString(row), IntToString(col), if horizontal then "h" else "v"])
            == Ok(PlaceShipCommand(name, (row, col), horizontal))
  {
    var parts := ["place", name, IntToString(row), IntToString(col), if horizontal then "h" else "v"];
    assert Lower(parts[0]) == "place";
    ParseIntToString(row);
    ParseIntToString(col);
    HorizontalIff(parts[4]);
    var r := ParseWords(parts);
    assert r.Ok? && r.value.PlaceShipCommand?;
  }

  lemma ParseFormatFire(row: int, col: int)
    ensures ParseCommand(Format(FireCommand((row, col)))) == Ok(FireCommand((row, col)))
  {
    var words := ["fire", IntToString(row), IntToString(col)];
    assert Format(FireCommand((row, col))) == Unwords(words);
    SplitUnwords(words);
    FireWords(row, col);
  }

  lemma FireWords(row: int, col: int)
    ensures ParseWords(["fire", IntToString(row), IntToString(col)]) == Ok(FireCommand((row, col)))
  {
    ParseIntToString(row);
    ParseIntToString(col);
    assert Lower("fire") == "fire";
  }
}
