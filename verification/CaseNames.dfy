/** camelCase and snake_case names: when converting there and back gives the name again. */
module CaseNames {
  import opened SqlText

  predicate IsUpper(c: char) { 'A' <= c <= 'Z' }

  predicate IsLow(c: char) { 'a' <= c <= 'z' || IsDigit(c) }

  function ToLower(c: char): char { if IsUpper(c) then c + 32 as char else c }

  function ToUpper(c: char): char { if 'a' <= c <= 'z' then c - 32 as char else c }

  /** A lower-case letter or digit before a capital gets an underscore after it; then
      everything is lower-cased. */
  function CamelToSnake(s: string): string {
    if s == "" then ""
    else if |s| >= 2 && IsLow(s[0]) && IsUpper(s[1]) then [s[0], '_', ToLower(s[1])] + CamelToSnake(s[2..])
    else [ToLower(s[0])] + CamelToSnake(s[1..])
  }

  /** An underscore before a lower-case letter or digit is dropped and that one raised. */
  function SnakeToCamel(s: string): string {
    if s == "" then ""
    else if |s| >= 2 && s[0] == '_' && IsLow(s[1]) then [ToUpper(s[1])] + SnakeToCamel(s[2..])
    else [s[0]] + SnakeToCamel(s[1..])
  }

  predicate CanonicalAt(s: string, i: nat)
    requires i < |s|
  {
    && (IsUpper(s[i]) ==> i > 0 && IsLow(s[i - 1]))
    && (s[i] == '_' && i + 1 < |s| ==> !IsLow(s[i + 1]) && !IsUpper(s[i + 1]))
  }

  /** Every capital stands right after a lower-case letter or digit, and no underscore
      stands right before a letter or digit. */
  predicate Canonical(s: string) { forall i :: 0 <= i < |s| ==> CanonicalAt(s, i) }

  /** A front the conversion spoils: a capital, or an underscore that gets eaten. */
  predicate BadFront(s: string)
    requires s != ""
  {
    IsUpper(s[0]) || (s[0] == '_' && |s| >= 2 && (IsLow(s[1]) || IsUpper(s[1])))
  }

  /** The same, read from the front as the conversion does. */
  predicate CanonicalFrom(s: string) {
    s == "" ||
    (&& !BadFront(s)
     && if |s| >= 2 && IsLow(s[0]) && IsUpper(s[1]) then CanonicalFrom(s[2..]) else CanonicalFrom(s[1..]))
  }

  lemma CanonicalTail(s: string, k: nat)
    requires Canonical(s) && 0 < k <= |s| && (k < |s| ==> !IsUpper(s[k]))
    ensures Canonical(s[k..])
  {
    var t := s[k..];
    forall i | 0 <= i < |t|
      ensures CanonicalAt(t, i)
    {
      assert CanonicalAt(s, k + i);
      assert t[i] == s[k + i] && (i + 1 < |t| ==> t[i + 1] == s[k + i + 1]) && (i > 0 ==> t[i - 1] == s[k + i - 1]);
    }
  }

  lemma {:induction false} CanonicalIsCanonicalFrom(s: string)
    ensures Canonical(s) <==> CanonicalFrom(s)
  {
    if s != "" {
      var k := if |s| >= 2 && IsLow(s[0]) && IsUpper(s[1]) then 2 else 1;
      CanonicalIsCanonicalFrom(s[k..]);
      if Canonical(s) {
        assert CanonicalAt(s, 0);
        if k < |s| { assert CanonicalAt(s, k); }
        CanonicalTail(s, k);
      }
      if CanonicalFrom(s) {
        FrontCanonical(s, k);
      }
    }
  }

  lemma FrontCanonical(s: string, k: nat)
    requires s != "" && CanonicalFrom(s) && k == (if |s| >= 2 && IsLow(s[0]) && IsUpper(s[1]) then 2 else 1)
    requires Canonical(s[k..])
    ensures Canonical(s)
  {
    var t := s[k..];
    forall i | 0 <= i < |s|
      ensures CanonicalAt(s, i)
    {
      if i >= k {
        assert CanonicalAt(t, i - k);
        assert s[i] == t[i - k] && (i + 1 < |s| ==> s[i + 1] == t[i - k + 1]) && (i > k ==> s[i - 1] == t[i - k - 1]);
      }
    }
  }

  /** What follows a converted name starts as the name does, but in lower case. */
  lemma SnakeStart(s: string)
    requires s != ""
    ensures CamelToSnake(s) != "" && CamelToSnake(s)[0] == ToLower(s[0])
  {
  }

  lemma CamelOther(c: char, r: string)
    requires !(c == '_' && r != "" && IsLow(r[0]))
    ensures SnakeToCamel([c] + r) == [c] + SnakeToCamel(r)
  {
    assert ([c] + r)[1..] == r;
  }

  lemma CamelHump(c: char, r: string)
    requires IsLow(c)
    ensures SnakeToCamel(['_', c] + r) == [ToUpper(c)] + SnakeToCamel(r)
  {
    assert (['_', c] + r)[2..] == r;
  }

  lemma SnakePair(s: string)
    requires |s| >= 2 && IsLow(s[0]) && IsUpper(s[1])
    ensures CamelToSnake(s) == [s[0]] + (['_', ToLower(s[1])] + CamelToSnake(s[2..]))
  {
  }

  lemma SnakeOther(s: string)
    requires s != "" && !(|s| >= 2 && IsLow(s[0]) && IsUpper(s[1]))
    ensures CamelToSnake(s) == [ToLower(s[0])] + CamelToSnake(s[1..])
  {
  }

  lemma RaisedAgain(c: char)
    requires IsUpper(c)
    ensures IsLow(ToLower(c)) && ToUpper(ToLower(c)) == c
  {
  }

  lemma FirstTwo(s: string, t: string)
    requires |s| >= 2
    ensures [s[0]] + ([s[1]] + t) == s[..2] + t
  {
  }

  lemma PairReturns(s: string)
    requires |s| >= 2 && IsLow(s[0]) && IsUpper(s[1])
    ensures SnakeToCamel(CamelToSnake(s)) == s[..2] + SnakeToCamel(CamelToSnake(s[2..]))
  {
    hide CamelToSnake, SnakeToCamel, ToLower, ToUpper;
    var rest := CamelToSnake(s[2..]);
    SnakePair(s);
    RaisedAgain(s[1]);
    assert s[0] != '_';
    CamelOther(s[0], ['_', ToLower(s[1])] + rest);
    CamelHump(ToLower(s[1]), rest);
    FirstTwo(s, SnakeToCamel(rest));
  }

  lemma FirstSpoiled(s: string)
    requires s != "" && BadFront(s)
    ensures SnakeToCamel(CamelToSnake(s)) == "" || SnakeToCamel(CamelToSnake(s))[0] != s[0]
  {
    hide CamelToSnake, SnakeToCamel;
    SnakeOther(s);
    var rest := CamelToSnake(s[1..]);
    if IsUpper(s[0]) {
      CamelOther(ToLower(s[0]), rest);
    } else {
      SnakeStart(s[1..]);
      assert [ToLower(s[0])] + rest == ['_', rest[0]] + rest[1..];
      CamelHump(rest[0], rest[1..]);
    }
  }

  lemma FirstKept(s: string)
    requires s != "" && !BadFront(s) && !(|s| >= 2 && IsLow(s[0]) && IsUpper(s[1]))
    ensures SnakeToCamel(CamelToSnake(s)) == s[..1] + SnakeToCamel(CamelToSnake(s[1..]))
  {
    hide SnakeToCamel;
    SnakeOther(s);
    if |s| >= 2 { SnakeStart(s[1..]); }
    CamelOther(s[0], CamelToSnake(s[1..]));
    assert s[..1] == [s[0]];
  }

  lemma FrontDecides(s: string, k: nat, t: string)
    requires k <= |s|
    ensures s[..k] + t == s <==> t == s[k..]
  {
    assert s[..k] + s[k..] == s;
    assert (s[..k] + t)[k..] == t;
  }

  lemma {:induction false} RoundTripIff(s: string)
    ensures SnakeToCamel(CamelToSnake(s)) == s <==> CanonicalFrom(s)
  {
    if s != "" {
      if |s| >= 2 && IsLow(s[0]) && IsUpper(s[1]) {
        RoundTripIff(s[2..]);
        PairReturns(s);
        FrontDecides(s, 2, SnakeToCamel(CamelToSnake(s[2..])));
      } else {
        RoundTripIff(s[1..]);
        if BadFront(s) {
          FirstSpoiled(s);
        } else {
          FirstKept(s);
          FrontDecides(s, 1, SnakeToCamel(CamelToSnake(s[1..])));
        }
      }
    }
  }

  /** A property name survives the conversion to a column name and back if and only if
      it is canonical. */
  lemma NamesReturnIff(s: string)
    ensures SnakeToCamel(CamelToSnake(s)) == s <==> Canonical(s)
  {
    RoundTripIff(s);
    CanonicalIsCanonicalFrom(s);
  }

  /** A leading capital does not come back. */
  lemma CapitalsDoNotReturn()
    ensures SnakeToCamel(CamelToSnake("URL")) != "URL"
  {
    NamesReturnIff("URL");
    assert !CanonicalAt("URL", 0);
  }

  // --------------------------------------------------------------------- names of words

  predicate AllLow(s: string) { forall k :: 0 <= k < |s| ==> IsLow(s[k]) }

  /** Words of at least two characters that start with a letter. */
  predicate AreWords(ws: seq<string>) { forall w :: w in ws ==> |w| >= 2 && 'a' <= w[0] <= 'z' && AllLow(w) }

  /** `SecondThird` */
  function Humps(ws: seq<string>): string
    requires AreWords(ws)
  {
    if ws == [] then "" else assert ws[0] in ws; [ToUpper(ws[0][0])] + (ws[0][1..] + Humps(ws[1..]))
  }

  /** `_second_third` */
  function Tails(ws: seq<string>): string { if ws == [] then "" else "_" + (ws[0] + Tails(ws[1..])) }

  lemma SnakeLow(c: char, r: string)
    requires IsLow(c) && (r == "" || !IsUpper(r[0]))
    ensures CamelToSnake([c] + r) == [c] + CamelToSnake(r)
  {
    SnakeOther([c] + r);
    assert ([c] + r)[1..] == r;
  }

  lemma SnakeHump(c: char, v: char, r: string)
    requires IsLow(c) && 'a' <= v <= 'z'
    ensures CamelToSnake([c] + ([ToUpper(v)] + r)) == [c] + (['_', v] + CamelToSnake(r))
  {
    var s := [c] + ([ToUpper(v)] + r);
    SnakePair(s);
    assert s[2..] == r;
  }

  lemma Ends()
    ensures CamelToSnake("") == "" && SnakeToCamel("") == ""
  {
  }

  lemma FirstLow(first: string)
    requires AllLow(first) && first != ""
    ensures IsLow(first[0]) && !IsUpper(first[0]) && first[0] != '_' && AllLow(first[1..])
    ensures first == [first[0]] + first[1..]
  {
  }

  lemma WordParts(ws: seq<string>)
    requires AreWords(ws) && ws != []
    ensures var v := ws[0];
            && |v| >= 2 && 'a' <= v[0] <= 'z' && AllLow(v[1..]) && AreWords(ws[1..])
            && Humps(ws) == [ToUpper(v[0])] + (v[1..] + Humps(ws[1..]))
            && Tails(ws) == ['_', v[0]] + (v[1..] + Tails(ws[1..]))
  {
    hide IsLow;
    assert ws[0] in ws;
    WordPieces(ws[0], Tails(ws[1..]));
  }

  lemma WordPieces(v: string, more: string)
    requires v != ""
    ensures "_" + (v + more) == ['_', v[0]] + (v[1..] + more)
  {
  }

  lemma {:induction false} HumpsToTails(first: string, ws: seq<string>)
    requires AreWords(ws) && AllLow(first) && first != ""
    ensures CamelToSnake(first + Humps(ws)) == first + Tails(ws)
    decreases |ws|, |first|
  {
    hide CamelToSnake, AreWords, AllLow, Humps, Tails, IsLow, ToUpper;
    FirstLow(first);
    var c, rest := first[0], first[1..];
    if rest != "" {
      HumpsToTails(rest, ws);
      FirstLow(rest);
      SnakeLow(c, rest + Humps(ws));
      Split(c, rest, Humps(ws));
      Split(c, rest, Tails(ws));
    } else if ws == [] {
      Ends();
      NoWords();
      SnakeLow(c, "");
      assert first + "" == first && [c] + "" == first;
    } else {
      WordParts(ws);
      var v := ws[0];
      HumpsToTails(v[1..], ws[1..]);
      SnakeHump(c, v[0], v[1..] + Humps(ws[1..]));
      assert first == [c];
    }
  }

  lemma Split(c: char, rest: string, more: string)
    ensures [c] + rest + more == [c] + (rest + more)
  {
  }

  lemma NoWords()
    ensures AreWords([]) && Humps([]) == "" && Tails([]) == ""
  {
  }

  lemma {:induction false} TailsToHumps(first: string, ws: seq<string>)
    requires AreWords(ws) && AllLow(first)
    ensures SnakeToCamel(first + Tails(ws)) == first + Humps(ws)
    decreases |ws|, |first|
  {
    hide SnakeToCamel, AreWords, AllLow, Humps, Tails, IsLow, ToUpper;
    if first != "" {
      FirstLow(first);
      var c, rest := first[0], first[1..];
      TailsToHumps(rest, ws);
      CamelOther(c, rest + Tails(ws));
      Split(c, rest, Tails(ws));
      Split(c, rest, Humps(ws));
    } else if ws != [] {
      WordParts(ws);
      var v := ws[0];
      TailsToHumps(v[1..], ws[1..]);
      LetterIsLow(v[0]);
      CamelHump(v[0], v[1..] + Tails(ws[1..]));
      assert first + Tails(ws) == Tails(ws) && first + Humps(ws) == Humps(ws);
    } else {
      NoWords();
      Ends();
    }
  }

  lemma LetterIsLow(c: char)
    requires 'a' <= c <= 'z'
    ensures IsLow(c)
  {
  }

  /** `firstSecondThird` becomes `first_second_third`, and that becomes it again. */
  lemma WordsConvert(first: string, ws: seq<string>)
    requires AreWords([first] + ws)
    ensures CamelToSnake(first + Humps(ws)) == first + Tails(ws)
    ensures SnakeToCamel(first + Tails(ws)) == first + Humps(ws)
  {
    assert first in [first] + ws;
    HumpsToTails(first, ws);
    TailsToHumps(first, ws);
  }
}
