/** The player-list parser: one `name... skill gender role` record per input line. */
module Parsing {
  import opened Players

  datatype Option<+T> = None | Some(value: T)

  // ---------------------------------------------------------------------------
  // Whitespace, `str.split()`, `str.strip()` and `" ".join`.

  /** The characters for which Python's `str.isspace()` holds. */
  predicate IsSpace(c: char)
  {
    || c == ' '
    || ('\t' <= c <= '\r')
    || ('\U{1C}' <= c <= '\U{1F}')
    || c == '\U{85}' || c == '\U{A0}' || c == '\U{1680}'
    || ('\U{2000}' <= c <= '\U{200A}')
    || c == '\U{2028}' || c == '\U{2029}' || c == '\U{202F}' || c == '\U{205F}' || c == '\U{3000}'
  }

  /** No whitespace anywhere in `t`. */
  predicate NoSpace(t: string)
  {
    forall i :: 0 <= i < |t| ==> !IsSpace(t[i])
  }

  /** What `str.split()` can produce: a non-empty run of non-whitespace. */
  predicate IsToken(t: string)
  {
    |t| > 0 && NoSpace(t)
  }

  /** `s` with its leading whitespace cut off. */
  function TrimLeft(s: string): string
    decreases |s|
  {
    if s != [] && IsSpace(s[0]) then TrimLeft(s[1..]) else s
  }

  /** `s` with its trailing whitespace cut off. */
  function TrimRight(s: string): string
    decreases |s|
  {
    if s != [] && IsSpace(s[|s| - 1]) then TrimRight(s[..|s| - 1]) else s
  }

  /** Trimming on the left drops exactly the leading whitespace: what is left is a
      suffix of `s` that is empty or starts with non-whitespace. */
  lemma {:induction false} TrimLeftFacts(s: string)
    ensures var r := TrimLeft(s);
      && |r| <= |s| && r == s[|s| - |r|..]
      && (r == [] || !IsSpace(r[0]))
      && forall i :: 0 <= i < |s| - |r| ==> IsSpace(s[i])
    decreases |s|
  {
    if s != [] && IsSpace(s[0]) {
      TrimLeftFacts(s[1..]);
    }
  }

  /** Trimming on the right drops exactly the trailing whitespace: what is left is a
      prefix of `s` that is empty or ends with non-whitespace. */
  lemma {:induction false} TrimRightFacts(s: string)
    ensures var r := TrimRight(s);
      && |r| <= |s| && r == s[..|r|]
      && (r == [] || !IsSpace(r[|r| - 1]))
      && forall i :: |r| <= i < |s| ==> IsSpace(s[i])
    decreases |s|
  {
    if s != [] && IsSpace(s[|s| - 1]) {
      TrimRightFacts(s[..|s| - 1]);
    }
  }

  /** `r` is `s` from position `a` on, with only whitespace around it. */
  ghost predicate Surrounded(s: string, a: int, r: string)
  {
    && 0 <= a <= |s| - |r| && r == s[a..a + |r|]
    && (forall i :: 0 <= i < a ==> IsSpace(s[i]))
    && (forall i :: a + |r| <= i < |s| ==> IsSpace(s[i]))
  }

  /** `str.strip()`: the middle of `s` with the whitespace at both ends cut off. */
  function Strip(s: string): string
  {
    TrimRight(TrimLeft(s))
  }

  /** What `str.strip()` promises: the result sits inside `s` with only whitespace
      around it, and neither of its ends is whitespace. */
  lemma StripSurrounded(s: string)
    ensures exists a :: Surrounded(s, a, Strip(s))
    ensures var r := Strip(s); r == [] || (!IsSpace(r[0]) && !IsSpace(r[|r| - 1]))
  {
    var left := TrimLeft(s);
    TrimLeftFacts(s);
    TrimRightFacts(left);
    var r := Strip(s);
    var a := |s| - |left|;
    assert r == left[..|r|];
    assert Surrounded(s, a, r);
  }

  /** The tokens of `s` when the word being read so far is `word`: whitespace ends
      the word (if any), anything else extends it. */
  function SplitFrom(s: string, word: string): (tokens: seq<string>)
    requires NoSpace(word)
    ensures forall t :: t in tokens ==> IsToken(t)
    decreases |s|
  {
    if s == [] then
      (if word == [] then [] else [word])
    else if IsSpace(s[0]) then
      (if word == [] then [] else [word]) + SplitFrom(s[1..], [])
    else
      SplitFrom(s[1..], word + [s[0]])
  }

  /** `str.split()` without a separator: the maximal runs of non-whitespace. */
  function Split(s: string): (tokens: seq<string>)
    ensures forall t :: t in tokens ==> IsToken(t)
  {
    SplitFrom(s, [])
  }

  /** `sep.join(tokens)`. */
  function Join(tokens: seq<string>, sep: string): string
    decreases |tokens|
  {
    if tokens == [] then []
    else if |tokens| == 1 then tokens[0]
    else tokens[0] + sep + Join(tokens[1..], sep)
  }

  /** The non-whitespace characters of `s`, in order. */
  function NonSpace(s: string): string
    decreases |s|
  {
    if s == [] then [] else (if IsSpace(s[0]) then [] else [s[0]]) + NonSpace(s[1..])
  }

  function Concat(tokens: seq<string>): string
    decreases |tokens|
  {
    if tokens == [] then [] else tokens[0] + Concat(tokens[1..])
  }

  lemma ConcatCons(t: string, more: seq<string>)
    ensures Concat([t] + more) == t + Concat(more)
  {
    assert ([t] + more)[1..] == more;
  }

  lemma {:induction false} SplitFromKeepsText(s: string, word: string)
    requires NoSpace(word)
    ensures Concat(SplitFrom(s, word)) == word + NonSpace(s)
    decreases |s|
  {
    if s == [] {
      assert word + [] == word;
    } else if IsSpace(s[0]) {
      SplitFromKeepsText(s[1..], []);
      if word != [] {
        ConcatCons(word, SplitFrom(s[1..], []));
      } else {
        assert [] + SplitFrom(s[1..], []) == SplitFrom(s[1..], []);
      }
    } else {
      SplitFromKeepsText(s[1..], word + [s[0]]);
      assert (word + [s[0]]) + NonSpace(s[1..]) == word + ([s[0]] + NonSpace(s[1..]));
    }
  }

  /** Splitting loses only whitespace: the tokens, put back together, are exactly the
      line's non-whitespace characters. */
  lemma SplitKeepsText(s: string)
    ensures Concat(Split(s)) == NonSpace(s)
  {
    SplitFromKeepsText(s, []);
  }

  /** Reading a run of non-whitespace only extends the current word. */
  lemma {:induction false} SplitFromToken(t: string, rest: string, word: string)
    requires NoSpace(word) && NoSpace(t)
    ensures NoSpace(word + t)
    ensures SplitFrom(t + rest, word) == SplitFrom(rest, word + t)
    decreases |t|
  {
    if t == [] {
      assert t + rest == rest && word + t == word;
    } else {
      assert (t + rest)[1..] == t[1..] + rest;
      assert (word + [t[0]]) + t[1..] == word + t;
      SplitFromToken(t[1..], rest, word + [t[0]]);
    }
  }

  /** A whitespace character after `a` ends the word being read, and what follows it
      is split afresh. */
  lemma {:induction false} SplitFromSpace(a: string, c: char, b: string, word: string)
    requires NoSpace(word) && IsSpace(c)
    ensures SplitFrom(a + [c] + b, word) == SplitFrom(a, word) + SplitFrom(b, [])
    decreases |a|
  {
    if a == [] {
      assert a + [c] + b == [c] + b;
      assert ([c] + b)[1..] == b;
    } else {
      assert (a + [c] + b)[0] == a[0];
      assert (a + [c] + b)[1..] == a[1..] + [c] + b;
      if IsSpace(a[0]) {
        SplitFromSpace(a[1..], c, b, []);
      } else {
        SplitFromSpace(a[1..], c, b, word + [a[0]]);
      }
    }
  }

  /** Whitespace separates: the tokens of `a + [c] + b` are the tokens of `a`
      followed by the tokens of `b`, so no token spans a whitespace character. */
  lemma SplitSpace(a: string, c: char, b: string)
    requires IsSpace(c)
    ensures Split(a + [c] + b) == Split(a) + Split(b)
  {
    SplitFromSpace(a, c, b, []);
  }

  /** A whitespace-free run is not broken up: it is one token by itself. Together with
      `SplitSpace` and `Split([]) == []`, this fixes `Split` on every string. */
  lemma SplitToken(t: string)
    requires IsToken(t)
    ensures Split(t) == [t]
  {
    SplitFromToken(t, [], []);
    assert t + [] == t && [] + t == t;
  }

  /** `Split` is the only splitting that yields nothing for the empty string, one token
      for a whitespace-free run, and splits apart at every whitespace character. */
  lemma {:induction false} SplitUnique(s: string, split: string -> seq<string>)
    requires split([]) == []
    requires forall t :: IsToken(t) ==> split(t) == [t]
    requires forall a, c, b :: IsSpace(c) ==> split(a + [c] + b) == split(a) + split(b)
    ensures split(s) == Split(s)
    decreases |s|
  {
    if s == [] {
    } else if NoSpace(s) {
      SplitToken(s);
    } else {
      var i :| 0 <= i < |s| && IsSpace(s[i]);
      assert s == s[..i] + [s[i]] + s[i + 1..];
      SplitUnique(s[..i], split);
      SplitUnique(s[i + 1..], split);
      SplitSpace(s[..i], s[i], s[i + 1..]);
    }
  }

  /** Joining tokens with single spaces and splitting again gives the tokens back. */
  lemma {:induction false} SplitJoin(tokens: seq<string>)
    requires forall t :: t in tokens ==> IsToken(t)
    ensures Split(Join(tokens, " ")) == tokens
    decreases |tokens|
  {
    if tokens == [] {
    } else if |tokens| == 1 {
      var t := tokens[0];
      assert t in tokens;
      SplitFromToken(t, [], []);
      assert t + [] == t && [] + t == t;
    } else {
      var t, more := tokens[0], tokens[1..];
      var rest := Join(more, " ");
      assert t in tokens;
      assert forall u :: u in more ==> u in tokens;
      SplitJoin(more);
      assert Join(tokens, " ") == t + (" " + rest);
      SplitFromToken(t, " " + rest, []);
      assert [] + t == t;
      assert (" " + rest)[1..] == rest;
      assert tokens == [t] + more;
    }
  }

  /** The first and last characters of tokens joined by spaces are the tokens' own. */
  lemma {:induction false} JoinEnds(tokens: seq<string>)
    requires |tokens| > 0 && forall t :: t in tokens ==> IsToken(t)
    ensures var s := Join(tokens, " ");
      |s| > 0 && !IsSpace(s[0]) && !IsSpace(s[|s| - 1])
    decreases |tokens|
  {
    assert tokens[0] in tokens;
    if |tokens| > 1 {
      assert forall u :: u in tokens[1..] ==> u in tokens;
      JoinEnds(tokens[1..]);
    }
  }

  /** Stripping a string that starts and ends with non-whitespace leaves it alone. */
  lemma StripTrimmed(s: string)
    requires |s| > 0 && !IsSpace(s[0]) && !IsSpace(s[|s| - 1])
    ensures Strip(s) == s
  {
  }

  // ---------------------------------------------------------------------------
  // `int()` on a token and `str.lower()`.

  predicate IsDigit(c: char)
  {
    '0' <= c <= '9'
  }

  /** The body of a literal `int()` accepts: ASCII digits, with single underscores
      allowed between two digits. */
  predicate IsDigitString(s: string)
    decreases |s|
  {
    && |s| > 0 && IsDigit(s[0])
    && (|s| == 1 || IsDigitString(s[1..]) || (s[1] == '_' && IsDigitString(s[2..])))
  }

  /** A run of ASCII digits is a digit string. */
  lemma {:induction false} AllDigitsIsDigitString(s: string)
    requires |s| > 0 && forall i :: 0 <= i < |s| ==> IsDigit(s[i])
    ensures IsDigitString(s)
    decreases |s|
  {
    if |s| > 1 {
      AllDigitsIsDigitString(s[1..]);
    }
  }

  function DigitValue(c: char): nat
    requires IsDigit(c)
  {
    c as int - '0' as int
  }

  /** The decimal value of the digits of `s`, underscores skipped. */
  function DigitsValue(s: string): nat
    decreases |s|
  {
    if s == [] then 0
    else
      var c := s[|s| - 1];
      if IsDigit(c) then DigitsValue(s[..|s| - 1]) * 10 + DigitValue(c)
      else DigitsValue(s[..|s| - 1])
  }

  /** `int(token)`: an optional sign, then a digit string; anything else raises
      `ValueError`, modelled as `None`. */
  function ParseInt(t: string): (r: Option<int>)
    ensures r.Some? ==> |t| > 0 && (r.value < 0 ==> t[0] == '-')
  {
    if |t| > 0 && (t[0] == '+' || t[0] == '-') then
      if IsDigitString(t[1..]) then
        var magnitude: int := DigitsValue(t[1..]);
        Some(if t[0] == '-' then -magnitude else magnitude)
      else None
    else if IsDigitString(t) then Some(DigitsValue(t))
    else None
  }

  function DigitChar(d: nat): (c: char)
    requires d < 10
    ensures IsDigit(c) && DigitValue(c) == d
  {
    ('0' as int + d) as char
  }

  /** The decimal digits of `n`, most significant first. */
  function NatDigits(n: nat): (s: string)
    ensures |s| > 0 && forall i :: 0 <= i < |s| ==> IsDigit(s[i])
    decreases n
  {
    if n < 10 then [DigitChar(n)] else NatDigits(n / 10) + [DigitChar(n % 10)]
  }

  /** `str(n)`. */
  function FormatInt(n: int): string
  {
    if n < 0 then "-" + NatDigits(-n) else NatDigits(n)
  }

  lemma {:induction false} DigitsValueOfNatDigits(n: nat)
    ensures DigitsValue(NatDigits(n)) == n
    decreases n
  {
    var s := NatDigits(n);
    if n >= 10 {
      assert s[..|s| - 1] == NatDigits(n / 10);
      DigitsValueOfNatDigits(n / 10);
    }
  }

  lemma ParseNatDigits(n: nat)
    ensures IsDigitString(NatDigits(n)) && DigitsValue(NatDigits(n)) == n
  {
    DigitsValueOfNatDigits(n);
    AllDigitsIsDigitString(NatDigits(n));
  }

  /** `int(str(n)) == n`. */
  lemma ParseFormatInt(n: int)
    ensures ParseInt(FormatInt(n)) == Some(n)
  {
    if n < 0 {
      var digits := NatDigits(-n);
      ParseNatDigits(-n);
      var t := FormatInt(n);
      assert t == "-" + digits && t[0] == '-';
      assert t[1..] == digits;
    } else {
      ParseNatDigits(n);
    }
  }

  lemma DigitsHaveNoSpace(s: string)
    requires forall i :: 0 <= i < |s| ==> IsDigit(s[i])
    ensures NoSpace(s)
  {
    forall i | 0 <= i < |s| ensures !IsSpace(s[i]) {
      assert IsDigit(s[i]);
    }
  }

  /** `str(n)` is a single token. */
  lemma FormatIntIsToken(n: int)
    ensures IsToken(FormatInt(n))
  {
    var digits := NatDigits(if n < 0 then -n else n);
    DigitsHaveNoSpace(digits);
    if n < 0 {
      assert FormatInt(n) == "-" + digits;
      assert forall i :: 1 <= i < |FormatInt(n)| ==> FormatInt(n)[i] == digits[i - 1];
    }
  }

  /** A token with no digit at all is never an integer. */
  lemma ParseIntNeedsDigit(t: string)
    requires forall i :: 0 <= i < |t| ==> !IsDigit(t[i])
    ensures ParseInt(t) == None
  {
  }

  /** What a digit string looks like: it starts and ends with a digit, every character
      is a digit or `_`, and no two underscores are adjacent. */
  lemma {:induction false} DigitStringShape(s: string)
    requires IsDigitString(s)
    ensures IsDigit(s[0]) && IsDigit(s[|s| - 1])
    ensures forall i :: 0 <= i < |s| ==> IsDigit(s[i]) || s[i] == '_'
    ensures forall i, j :: 0 <= i && j == i + 1 && j < |s| ==> IsDigit(s[i]) || IsDigit(s[j])
    decreases |s|
  {
    if |s| > 1 {
      if IsDigitString(s[1..]) {
        DigitStringShape(s[1..]);
        assert forall i :: 1 <= i < |s| ==> s[i] == s[1..][i - 1];
      } else {
        DigitStringShape(s[2..]);
        assert forall i :: 2 <= i < |s| ==> s[i] == s[2..][i - 2];
      }
    }
  }

  /** A leading zero does not change the value of a digit string. */
  lemma {:induction false} DigitsValueLeadingZero(d: string)
    ensures DigitsValue("0" + d) == DigitsValue(d)
    decreases |d|
  {
    if d != [] {
      var s := "0" + d;
      assert s[..|s| - 1] == "0" + d[..|d| - 1];
      assert s[|s| - 1] == d[|d| - 1];
      DigitsValueLeadingZero(d[..|d| - 1]);
    }
  }

  /** An underscore between digits does not change the value. */
  lemma {:induction false} DigitsValueSkipsUnderscore(a: string, b: string)
    ensures DigitsValue(a + "_" + b) == DigitsValue(a + b)
    decreases |b|
  {
    if b == [] {
      assert (a + "_" + b)[..|a|] == a && a + b == a;
    } else {
      var s, t := a + "_" + b, a + b;
      assert s[..|s| - 1] == a + "_" + b[..|b| - 1];
      assert t[..|t| - 1] == a + b[..|b| - 1];
      assert s[|s| - 1] == t[|t| - 1] == b[|b| - 1];
      DigitsValueSkipsUnderscore(a, b[..|b| - 1]);
    }
  }

  /** Two digit strings joined by one underscore make a digit string. */
  lemma {:induction false} DigitStringUnderscore(a: string, b: string)
    requires IsDigitString(a) && IsDigitString(b)
    ensures IsDigitString(a + "_" + b)
    decreases |a|
  {
    var s := a + "_" + b;
    if |a| == 1 {
      assert s[1] == '_' && s[2..] == b;
    } else if IsDigitString(a[1..]) {
      DigitStringUnderscore(a[1..], b);
      assert s[1..] == a[1..] + "_" + b;
    } else {
      DigitStringUnderscore(a[2..], b);
      assert s[2..] == a[2..] + "_" + b;
    }
  }

  /** `int("+" + d)` and `int("-" + d)` read the digits with that sign. */
  lemma ParseIntSigned(d: string)
    requires IsDigitString(d)
    ensures ParseInt("+" + d) == Some(DigitsValue(d))
    ensures ParseInt("-" + d) == Some(-(DigitsValue(d) as int))
  {
    assert ("+" + d)[1..] == d;
    assert ("-" + d)[1..] == d;
  }

  /** Leading zeros are allowed and do not change the value: `int("007") == 7`. */
  lemma ParseIntLeadingZero(d: string)
    requires IsDigitString(d)
    ensures ParseInt("0" + d) == ParseInt(d) == Some(DigitsValue(d))
  {
    assert ("0" + d)[1..] == d;
    DigitsValueLeadingZero(d);
  }

  /** A single underscore between digits is allowed and skipped: `int("1_000") == 1000`. */
  lemma ParseIntUnderscore(a: string, b: string)
    requires IsDigitString(a) && IsDigitString(b)
    ensures ParseInt(a + "_" + b) == Some(DigitsValue(a + b))
  {
    DigitStringUnderscore(a, b);
    DigitsValueSkipsUnderscore(a, b);
    assert (a + "_" + b)[0] == a[0];
  }

  /** Without a digit string after the optional sign, `int()` raises `ValueError`:
      a letter anywhere (`"12a"`) or two adjacent underscores (`"1__2"`) reject the token. */
  lemma ParseIntRejects(t: string, i: nat)
    requires i < |t| && ((!IsDigit(t[i]) && t[i] != '_' && (i > 0 || (t[0] != '+' && t[0] != '-')))
                         || (i + 1 < |t| && t[i] == '_' && t[i + 1] == '_'))
    ensures ParseInt(t) == None
  {
    if |t| > 0 && (t[0] == '+' || t[0] == '-') {
      if IsDigitString(t[1..]) {
        DigitStringShape(t[1..]);
      }
    } else if IsDigitString(t) {
      DigitStringShape(t);
    }
  }

  function LowerChar(c: char): char
  {
    if 'A' <= c <= 'Z' then (c as int - 'A' as int + 'a' as int) as char else c
  }

  /** `str.lower()` on ASCII letters. */
  function Lower(s: string): (r: string)
    ensures |r| == |s|
    ensures forall i :: 0 <= i < |s| ==> !('A' <= r[i] <= 'Z')
    ensures forall i :: 0 <= i < |s| ==>
      r[i] == s[i] || ('A' <= s[i] <= 'Z' && r[i] as int == s[i] as int + 32)
  {
    seq(|s|, i requires 0 <= i < |s| => LowerChar(s[i]))
  }

  /** Lowering twice is lowering once. */
  lemma LowerIdempotent(s: string)
    ensures Lower(Lower(s)) == Lower(s)
  {
  }

  // ---------------------------------------------------------------------------
  // One line, and the batch.

  /** The conditions under which a line yields a record: at least four tokens, the
      third from last an integer, the last two a known gender and role in any case. */
  predicate Accepted(parts: seq<string>)
  {
    && |parts| >= 4
    && ParseInt(parts[|parts| - 3]).Some?
    && Lower(parts[|parts| - 2]) in Genders
    && Lower(parts[|parts| - 1]) in Roles
  }

  /** The name a line yields: the leading tokens joined by single spaces, stripped. */
  function LineName(parts: seq<string>): (name: string)
    requires |parts| >= 4 && forall t :: t in parts ==> IsToken(t)
    ensures name != []
  {
    var leading := parts[..|parts| - 3];
    assert forall t :: t in leading ==> t in parts;
    JoinEnds(leading);
    StripTrimmed(Join(leading, " "));
    Strip(Join(leading, " "))
  }

  /** Stripping the joined name changes nothing: the name is the leading tokens
      joined by single spaces, and it neither starts nor ends with whitespace. */
  lemma LineNameJoined(parts: seq<string>)
    requires |parts| >= 4 && forall t :: t in parts ==> IsToken(t)
    ensures var name := LineName(parts);
      && name == Join(parts[..|parts| - 3], " ")
      && !IsSpace(name[0]) && !IsSpace(name[|name| - 1])
  {
    var leading := parts[..|parts| - 3];
    assert forall t :: t in leading ==> t in parts;
    JoinEnds(leading);
    StripTrimmed(Join(leading, " "));
  }

  /** The body of the loop over `players_input.splitlines()`: the record a line
      yields, or `None` when the line is skipped. */
  function ParseLine(line: string): (r: Option<Player>)
    ensures r.Some? ==> r.value.gender in Genders && r.value.role in Roles && r.value.name != []
  {
    var parts := Split(line);
    if |parts| < 4 then None
    else
      match ParseInt(parts[|parts| - 3])
      case None => None
      case Some(skill) =>
        var gender := Lower(parts[|parts| - 2]);
        var role := Lower(parts[|parts| - 1]);
        if gender !in Genders || role !in Roles then None
        else Some(Player(LineName(parts), skill, gender, role))
  }

  /** A line yields a record exactly when its tokens are accepted, and then the record
      is made of the stripped name, the parsed skill and the lowered gender and role. */
  lemma ParseLineAccepts(line: string)
    ensures ParseLine(line).Some? <==> Accepted(Split(line))
    ensures Accepted(Split(line)) ==>
      var parts := Split(line);
      ParseLine(line) == Some(Player(LineName(parts), ParseInt(parts[|parts| - 3]).value,
                                     Lower(parts[|parts| - 2]), Lower(parts[|parts| - 1])))
  {
  }

  lemma FieldTokens(nameTokens: seq<string>, skillToken: string, genderToken: string, roleToken: string)
    requires forall t :: t in nameTokens ==> IsToken(t)
    requires IsToken(skillToken) && IsToken(genderToken) && IsToken(roleToken)
    ensures var tokens := nameTokens + [skillToken, genderToken, roleToken];
      && (forall t :: t in tokens ==> IsToken(t))
      && tokens[|tokens| - 3] == skillToken && tokens[|tokens| - 2] == genderToken
      && tokens[|tokens| - 1] == roleToken && tokens[..|tokens| - 3] == nameTokens
  {
    var tokens := nameTokens + [skillToken, genderToken, roleToken];
    assert tokens[..|tokens| - 3] == nameTokens;
    assert forall t :: t in tokens ==> t in nameTokens || t in [skillToken, genderToken, roleToken];
  }

  /** A record written out as `name skill gender role`, with any spelling of the
      skill that `int()` reads and any letter case of gender and role, reads back as
      that record. */
  lemma ParseFormattedLine(nameTokens: seq<string>, skillToken: string, genderToken: string, roleToken: string)
    requires |nameTokens| > 0 && forall t :: t in nameTokens ==> IsToken(t)
    requires IsToken(skillToken) && ParseInt(skillToken).Some?
    requires IsToken(genderToken) && Lower(genderToken) in Genders
    requires IsToken(roleToken) && Lower(roleToken) in Roles
    ensures ParseLine(Join(nameTokens + [skillToken, genderToken, roleToken], " "))
         == Some(Player(Join(nameTokens, " "), ParseInt(skillToken).value, Lower(genderToken), Lower(roleToken)))
  {
    var tokens := nameTokens + [skillToken, genderToken, roleToken];
    FieldTokens(nameTokens, skillToken, genderToken, roleToken);
    SplitJoin(tokens);
    var line := Join(tokens, " ");
    assert Split(line) == tokens;
    ParseLineAccepts(line);
    LineNameJoined(tokens);
  }

  /** The canonical line of a record. */
  function FormatLine(nameTokens: seq<string>, p: Player): string
  {
    Join(nameTokens + [FormatInt(p.skill), p.gender, p.role], " ")
  }

  /** Lowering a string without upper-case letters leaves it alone. */
  lemma LowerOfLowercase(s: string)
    requires forall i :: 0 <= i < |s| ==> !('A' <= s[i] <= 'Z')
    ensures Lower(s) == s
  {
  }

  /** The allowed genders and roles are single lower-case tokens. */
  lemma AllowedWord(w: string)
    requires w in Genders || w in Roles
    ensures IsToken(w) && Lower(w) == w
  {
    LowerOfLowercase(w);
  }

  /** Every record the parser can produce is read back from its canonical line. */
  lemma ParseFormatLine(nameTokens: seq<string>, p: Player)
    requires |nameTokens| > 0 && forall t :: t in nameTokens ==> IsToken(t)
    requires p.name == Join(nameTokens, " ")
    requires p.gender in Genders && p.role in Roles
    ensures ParseLine(FormatLine(nameTokens, p)) == Some(p)
  {
    ParseFormatInt(p.skill);
    FormatIntIsToken(p.skill);
    AllowedWord(p.gender);
    AllowedWord(p.role);
    ParseFormattedLine(nameTokens, FormatInt(p.skill), p.gender, p.role);
  }

  /** What the parser guarantees of every record it yields. */
  predicate WellFormed(p: Player)
  {
    p.gender in Genders && p.role in Roles && p.name != []
  }

  /** The loop over `lines` with the per-line parser `parse`: the records of the lines
      that yield one, in order; a line that yields none adds nothing. */
  function Collect(parse: string -> Option<Player>, lines: seq<string>): (players: seq<Player>)
    ensures |players| <= |lines|
    decreases |lines|
  {
    if lines == [] then []
    else
      var before := Collect(parse, lines[..|lines| - 1]);
      match parse(lines[|lines| - 1])
      case None => before
      case Some(p) => before + [p]
  }

  /** One more line adds its record, if it yields one, at the end. */
  lemma CollectSnoc(parse: string -> Option<Player>, lines: seq<string>, line: string)
    ensures parse(line).None? ==> Collect(parse, lines + [line]) == Collect(parse, lines)
    ensures parse(line).Some? ==> Collect(parse, lines + [line]) == Collect(parse, lines) + [parse(line).value]
  {
    assert (lines + [line])[..|lines|] == lines;
  }

  /** A skipped line does not end the batch: the lines are parsed one by one. */
  lemma {:induction false} CollectAppend(parse: string -> Option<Player>, a: seq<string>, b: seq<string>)
    ensures Collect(parse, a + b) == Collect(parse, a) + Collect(parse, b)
    decreases |b|
  {
    if b == [] {
      assert a + b == a;
    } else {
      var pre, last := b[..|b| - 1], b[|b| - 1];
      assert a + b == (a + pre) + [last];
      CollectSnoc(parse, a + pre, last);
      CollectSnoc(parse, pre, last);
      assert b == pre + [last];
      CollectAppend(parse, a, pre);
    }
  }

  /** Every collected record is one the parser yielded for some line. */
  lemma {:induction false} CollectYielded(parse: string -> Option<Player>, lines: seq<string>)
    ensures forall p :: p in Collect(parse, lines) ==>
      exists i :: 0 <= i < |lines| && parse(lines[i]) == Some(p)
    decreases |lines|
  {
    if lines != [] {
      var pre := lines[..|lines| - 1];
      CollectYielded(parse, pre);
      forall p | p in Collect(parse, lines)
        ensures exists i :: 0 <= i < |lines| && parse(lines[i]) == Some(p)
      {
        if p in Collect(parse, pre) {
          var i :| 0 <= i < |pre| && parse(pre[i]) == Some(p);
          assert lines[i] == pre[i];
        } else {
          assert parse(lines[|lines| - 1]) == Some(p);
        }
      }
    }
  }

  /** The players the loop collects from `lines`, in order; each is well formed. */
  function ParseAll(lines: seq<string>): (players: seq<Player>)
    ensures |players| <= |lines|
    ensures forall p :: p in players ==> WellFormed(p)
  {
    CollectYielded(ParseLine, lines);
    Collect(ParseLine, lines)
  }

  /** A skipped line does not end the batch. */
  lemma ParseAllAppend(a: seq<string>, b: seq<string>)
    ensures ParseAll(a + b) == ParseAll(a) + ParseAll(b)
  {
    CollectAppend(ParseLine, a, b);
  }

  /** The loop at the top of the app: `players.append(...)` for every line accepted. */
  method ParsePlayers(lines: seq<string>) returns (players: seq<Player>)
    ensures players == ParseAll(lines)
    ensures forall p :: p in players ==> WellFormed(p)
  {
    players := [];
    for i := 0 to |lines|
      invariant players == Collect(ParseLine, lines[..i])
    {
      assert lines[..i + 1] == lines[..i] + [lines[i]];
      CollectSnoc(ParseLine, lines[..i], lines[i]);
      match ParseLine(lines[i])
      case None =>
      case Some(p) =>
        players := players + [p];
    }
    assert lines[..|lines|] == lines;
  }
}
