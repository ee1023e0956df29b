/** The game server's list of training iterations for which self-play
    games were logged, read off the file names of the evolution directory. */
module GameRoutes {
  import opened Scores
  import opened Decimal

  // ---------------------------------------------------------------------
  // Python's int() on a file-name field

  /** The ASCII characters str.strip() and int() skip: space, tab, line
      feed, vertical tab, form feed and carriage return (0x09..0x0D), and
      the four separators 0x1C..0x1F. */
  predicate IsSpace(c: char) {
    c == ' ' || '\t' <= c <= '\r' || '\U{001C}' <= c <= '\U{001F}'
  }

  predicate AllSpace(s: string) { forall i :: 0 <= i < |s| ==> IsSpace(s[i]) }

  /** str.lstrip() */
  function StripLeft(s: string): string
  {
    if s != [] && IsSpace(s[0]) then StripLeft(s[1..]) else s
  }

  /** str.rstrip() */
  function StripRight(s: string): string
  {
    if s != [] && IsSpace(s[|s| - 1]) then StripRight(s[..|s| - 1]) else s
  }

  /** int() of a stripped text: an optional sign, then one or more digits;
      anything else raises ValueError (None). */
  function ParseSigned(t: string): Option<int> {
    if t == [] then None
    else
      var digits := if t[0] == '+' || t[0] == '-' then t[1..] else t;
      if digits == [] || !AllDigits(digits) then None
      else if t[0] == '-' then Some(0 - Value(digits))
      else Some(Value(digits))
  }

  /** int(s) for a string without underscores: surrounding whitespace is
      skipped, then the rest must be a signed number. */
  function PyInt(s: string): Option<int> {
    ParseSigned(StripRight(StripLeft(s)))
  }

  // ---------------------------------------------------------------------
  // get_available_iterations

  const GamePrefix: string := "game_"
  const JsonSuffix: string := ".json"

  /** The text up to the first c (all of s when c does not occur). */
  function UpTo(s: string, c: char): (r: string)
    ensures r <= s && c !in r && (|r| < |s| ==> s[|r|] == c)
  {
    if s == [] || s[0] == c then [] else [s[0]] + UpTo(s[1..], c)
  }

  /** filename.split("_")[1] of a name starting with "game_": the text
      between the first and the second underscore ("game" holds none). */
  function SecondField(name: string): string
    requires GamePrefix <= name
  {
    UpTo(name[|GamePrefix|..], '_')
  }

  /** The iteration a file name contributes, if any. */
  function IterationOf(name: string): Option<int> {
    if GamePrefix <= name && |name| >= |JsonSuffix| && name[|name| - |JsonSuffix|..] == JsonSuffix
    then PyInt(SecondField(name))
    else None
  }

  /** Blanks in front of a text that does not start with one are stripped. */
  lemma {:induction false} StripLeftOf(blanks: string, t: string)
    requires AllSpace(blanks) && (t == [] || !IsSpace(t[0]))
    ensures StripLeft(blanks + t) == t
  {
    if blanks == [] {
      assert blanks + t == t;
    } else {
      assert (blanks + t)[1..] == blanks[1..] + t;
      StripLeftOf(blanks[1..], t);
    }
  }

  /** Blanks after a text that does not end with one are stripped. */
  lemma {:induction false} StripRightOf(t: string, blanks: string)
    requires AllSpace(blanks) && (t == [] || !IsSpace(t[|t| - 1]))
    ensures StripRight(t + blanks) == t
  {
    if blanks == [] {
      assert t + blanks == t;
    } else {
      var n := |blanks| - 1;
      assert (t + blanks)[..|t + blanks| - 1] == t + blanks[..n];
      StripRightOf(t, blanks[..n]);
    }
  }

  /** Blanks on both sides of a text that neither starts nor ends with one
      are stripped. */
  lemma StripBoth(lead: string, t: string, trail: string)
    requires AllSpace(lead) && AllSpace(trail)
    requires t != [] && !IsSpace(t[0]) && !IsSpace(t[|t| - 1])
    ensures StripRight(StripLeft(lead + t + trail)) == t
  {
    var u := t + trail;
    assert lead + t + trail == lead + u;
    assert u[0] == t[0];
    StripLeftOf(lead, u);
    StripRightOf(t, trail);
  }

  /** int() reads one or more digits, after an optional sign, with blanks
      on either side, as their value, negated after a minus sign. */
  lemma PyIntReads(lead: string, sign: string, digits: string, trail: string)
    requires AllSpace(lead) && AllSpace(trail) && digits != [] && AllDigits(digits)
    requires sign == "" || sign == "+" || sign == "-"
    ensures var v: int := if sign == "-" then 0 - Value(digits) else Value(digits);
      PyInt(lead + sign + digits + trail) == Some(v)
  {
    var t := sign + digits;
    var s := lead + sign + digits + trail;
    assert s == lead + t + trail;
    assert IsDigit(digits[0]) && IsDigit(digits[|digits| - 1]);
    assert t[|t| - 1] == digits[|digits| - 1];
    StripBoth(lead, t, trail);
    ParseSignedOf(sign, digits);
  }

  /** A signed number reads as its value, negated after a minus sign. */
  lemma ParseSignedOf(sign: string, digits: string)
    requires digits != [] && AllDigits(digits)
    requires sign == "" || sign == "+" || sign == "-"
    ensures var v: int := if sign == "-" then 0 - Value(digits) else Value(digits);
      ParseSigned(sign + digits) == Some(v)
  {
    var t := sign + digits;
    assert IsDigit(digits[0]);
    if sign == "" {
      assert t == digits;
      assert t[0] != '+' && t[0] != '-';
      assert ParseSigned(t) == Some(Value(digits));
    } else {
      assert t[0] == sign[0] && t[1..] == digits;
      if sign == "-" {
        assert ParseSigned(t) == Some(0 - Value(digits));
      } else {
        assert ParseSigned(t) == Some(Value(digits));
      }
    }
  }

  /** int() raises on a text with nothing but blanks. */
  lemma PyIntBlank(blanks: string)
    requires AllSpace(blanks)
    ensures PyInt(blanks) == None
  {
    assert blanks + [] == blanks;
    StripLeftOf(blanks, []);
  }

  /** int() reads a rendered number back. */
  lemma PyIntRender(i: nat)
    ensures PyInt(Render(i)) == Some(i)
  {
    RenderValue(i);
    var r := Render(i);
    assert IsDigit(r[0]) && IsDigit(r[|r| - 1]);
    assert StripLeft(r) == r;
    assert !IsSpace(r[|r| - 1]);
    assert StripRight(r) == r;
  }

  /** A text without c is kept whole. */
  lemma {:induction false} UpToAbsent(s: string, c: char)
    requires c !in s
    ensures UpTo(s, c) == s
  {
    if s != [] {
      UpToAbsent(s[1..], c);
      assert s == [s[0]] + s[1..];
    }
  }

  /** A field without c followed by c is cut exactly there. */
  lemma {:induction false} UpToStops(field: string, rest: string, c: char)
    requires c !in field && rest != [] && rest[0] == c
    ensures UpTo(field + rest, c) == field
  {
    if field != [] {
      assert (field + rest)[1..] == field[1..] + rest;
      UpToStops(field[1..], rest, c);
    }
  }

  /** The field of "game_" + field + tail, when tail starts the next field. */
  lemma SecondFieldOf(field: string, tail: string)
    requires '_' !in field && (tail == [] || tail[0] == '_')
    ensures GamePrefix <= GamePrefix + field + tail
    ensures SecondField(GamePrefix + field + tail) == field
  {
    var name := GamePrefix + field + tail;
    assert name == GamePrefix + (field + tail);
    assert name[..|GamePrefix|] == GamePrefix;
    assert name[|GamePrefix|..] == field + tail;
    if tail == [] {
      UpToAbsent(field, '_');
      assert field + tail == field;
    } else {
      UpToStops(field, tail, '_');
    }
  }

  /** A .json name starting with "game_" contributes int of its second field. */
  lemma IterationOfJson(name: string)
    requires GamePrefix <= name && |name| >= |JsonSuffix| && name[|name| - |JsonSuffix|..] == JsonSuffix
    ensures IterationOf(name) == PyInt(SecondField(name))
  {
  }

  /** Only a .json name starting with "game_" contributes. */
  lemma IterationOfOther(name: string)
    requires !(GamePrefix <= name && |name| >= |JsonSuffix| && name[|name| - |JsonSuffix|..] == JsonSuffix)
    ensures IterationOf(name) == None
  {
  }

  /** Putting "game_" in front keeps a ".json" ending. */
  lemma JsonAfterPrefix(field: string, tail: string)
    requires |field + tail| >= |JsonSuffix| && (field + tail)[|field + tail| - |JsonSuffix|..] == JsonSuffix
    ensures var name := GamePrefix + field + tail;
      |name| >= |JsonSuffix| && name[|name| - |JsonSuffix|..] == JsonSuffix
  {
    var name := GamePrefix + field + tail;
    assert name == GamePrefix + (field + tail);
    assert name[|name| - |JsonSuffix|..] == (field + tail)[|field + tail| - |JsonSuffix|..];
  }

  /** A .json name "game_" + field + tail whose field holds no underscore
      and is followed by one (or by nothing) contributes int(field). */
  lemma IterationOfParts(field: string, tail: string)
    requires '_' !in field && (tail == [] || tail[0] == '_')
    requires |field + tail| >= |JsonSuffix| && (field + tail)[|field + tail| - |JsonSuffix|..] == JsonSuffix
    ensures IterationOf(GamePrefix + field + tail) == PyInt(field)
  {
    var name := GamePrefix + field + tail;
    NameParts(name, field, tail);
    IterationOfJson(name);
  }

  /** The parts of such a name as the filter and the split see them. */
  lemma NameParts(name: string, field: string, tail: string)
    requires name == GamePrefix + field + tail
    requires '_' !in field && (tail == [] || tail[0] == '_')
    requires |field + tail| >= |JsonSuffix| && (field + tail)[|field + tail| - |JsonSuffix|..] == JsonSuffix
    ensures GamePrefix <= name && |name| >= |JsonSuffix| && name[|name| - |JsonSuffix|..] == JsonSuffix
    ensures SecondField(name) == field
  {
    SecondFieldOf(field, tail);
    JsonAfterPrefix(field, tail);
  }

  /** A rendered number holds no underscore. */
  lemma RenderNoUnderscore(i: nat)
    ensures '_' !in Render(i)
  {
    RenderValue(i);
    var r := Render(i);
    forall k | 0 <= k < |r| ensures r[k] != '_' { assert IsDigit(r[k]); }
  }

  /** A name "game_" + field + "_" + id + ".json" whose field holds no
      underscore contributes int(field). */
  lemma LoggedNameParts(field: string, id: string)
    requires '_' !in field
    ensures IterationOf(GamePrefix + field + "_" + id + JsonSuffix) == PyInt(field)
  {
    var tail := "_" + id + JsonSuffix;
    assert GamePrefix + field + "_" + id + JsonSuffix == GamePrefix + field + tail;
    assert (field + tail)[|field + tail| - |JsonSuffix|..] == JsonSuffix;
    IterationOfParts(field, tail);
  }

  /** The name the game logger writes for iteration i and any game id
      contributes i. */
  lemma LoggedNameCounts(i: nat, id: string)
    ensures IterationOf(GamePrefix + Render(i) + "_" + id + JsonSuffix) == Some(i)
  {
    RenderNoUnderscore(i);
    LoggedNameParts(Render(i), id);
    PyIntRender(i);
  }

  /** A name whose second field runs into the suffix does not contribute:
      int("5.json") raises. */
  lemma NoSecondField()
    ensures IterationOf(GamePrefix + "5.json") == None
  {
    var field := "5.json";
    assert IterationOf(GamePrefix + field + []) == PyInt(field) by {
      assert '_' !in field by {
        forall k | 0 <= k < |field| ensures field[k] != '_' { }
      }
      assert field + [] == field;
      assert field[|field| - |JsonSuffix|..] == JsonSuffix;
      IterationOfParts(field, []);
    }
    assert GamePrefix + field + [] == GamePrefix + field;
    assert StripRight(StripLeft(field)) == field by {
      assert !IsSpace(field[0]);
      assert StripLeft(field) == field;
      assert !IsSpace(field[|field| - 1]);
    }
    assert ParseSigned(field) == None by {
      assert field[0] != '+' && field[0] != '-';
      assert !IsDigit(field[1]);
      assert !AllDigits(field);
    }
  }

  /** int() accepts blanks around the number: "game_ 12_a.json" contributes 12. */
  lemma BlankAroundNumber()
    ensures IterationOf(GamePrefix + " 12" + "_a.json") == Some(12)
  {
    var field, tail := " 12", "_a.json";
    assert (field + tail)[|field + tail| - |JsonSuffix|..] == JsonSuffix;
    IterationOfParts(field, tail);
    assert PyInt(field) == Some(12) by {
      assert StripLeft(field) == "12" by { assert field[1..] == "12"; }
      assert StripRight("12") == "12";
      assert Value("12") == 12 by { assert "12"[..1] == "1"; }
    }
  }

  /** A strictly decreasing sequence: sorted(..., reverse=True) of a set. */
  predicate Descending(r: seq<int>) {
    forall i, j :: 0 <= i < j < |r| ==> r[i] > r[j]
  }

  /** A set that is not empty has a member. */
  lemma HasMember(s: set<int>)
    ensures s == {} || exists x :: x in s
  {
    if forall x :: x !in s {
      assert s == {};
    }
  }

  /** A finite non-empty set of integers has a largest member. */
  lemma {:induction false} HasLargest(s: set<int>) returns (m: int)
    requires s != {}
    ensures m in s && forall x :: x in s ==> x <= m
    decreases |s|
  {
    HasMember(s);
    var y :| y in s;
    var rest := s - {y};
    if rest == {} {
      m := y;
      forall x | x in s ensures x <= m {
        assert x !in rest;
      }
    } else {
      var below := HasLargest(rest);
      m := if y > below then y else below;
      forall x | x in s ensures x <= m {
        if x != y {
          assert x in rest;
        }
      }
    }
  }

  /** sorted(s, reverse=True): the members of s from the largest down. */
  method SortedDescending(s: set<int>) returns (r: seq<int>)
    ensures forall x :: x in s <==> x in r
    ensures Descending(r)
  {
    r := [];
    var rest := s;
    while rest != {}
      invariant rest <= s
      invariant forall x :: x in s <==> x in r || x in rest
      invariant Descending(r)
      invariant forall i, x :: 0 <= i < |r| && x in rest ==> r[i] > x
      decreases |rest|
    {
      ghost var top := HasLargest(rest);
      var m :| m in rest && forall x :: x in rest ==> x <= m;
      r := r + [m];
      rest := rest - {m};
    }
  }

  /** get_available_iterations over the evolution directory's listing
      (dirExists is os.path.exists): every iteration some game file names,
      each once, largest first; nothing for a missing directory. */
  method GetAvailableIterations(dirExists: bool, listing: seq<string>) returns (iterations: seq<int>)
    ensures !dirExists ==> iterations == []
    ensures dirExists ==> forall v :: v in iterations <==>
      exists i :: 0 <= i < |listing| && IterationOf(listing[i]) == Some(v)
    ensures Descending(iterations)
  {
    if !dirExists {
      return [];
    }
    var found: set<int> := {};
    for k := 0 to |listing|
      invariant forall v :: v in found <==> exists i :: 0 <= i < k && IterationOf(listing[i]) == Some(v)
    {
      var n := IterationOf(listing[k]);
      if n.Some? {
        found := found + {n.value};
      }
    }
    iterations := SortedDescending(found);
  }
}
