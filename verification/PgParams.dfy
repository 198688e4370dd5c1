/**
 Placeholder renumbering: every `?` and every `$`-number of a dynamically assembled SQL text becomes
 `$1`, `$2`, ... from left to right. The result is compared with how the database reads it.
 */
module PgParams {

  predicate IsDigit(c: char) {
    '0' <= c <= '9'
  }

  // ------------------------------------------------------------------ numbers as text

  // `format!("{n}")`.
  function Decimal(n: nat): (s: string)
    ensures s != [] && forall i | 0 <= i < |s| :: IsDigit(s[i])
  {
    var last := [('0' as int + n % 10) as char];
    if n < 10 then last else Decimal(n / 10) + last
  }

  function ValueOf(digits: string): nat
    requires forall i | 0 <= i < |digits| :: IsDigit(digits[i])
  {
    if digits == [] then 0
    else
      assert IsDigit(digits[|digits| - 1]);
      10 * ValueOf(digits[..|digits| - 1]) + (digits[|digits| - 1] as int - '0' as int)
  }

  lemma {:induction false} DecimalRoundTrip(n: nat)
    ensures ValueOf(Decimal(n)) == n
  {
    if n < 10 {
      assert Decimal(n)[..0] == [];
    } else {
      DecimalRoundTrip(n / 10);
      assert Decimal(n)[..|Decimal(n)| - 1] == Decimal(n / 10);
    }
  }

  // More digits behind a positive number always make another number.
  lemma {:induction false} MoreDigitsGrow(a: string, b: string)
    requires forall i | 0 <= i < |a| :: IsDigit(a[i])
    requires forall i | 0 <= i < |b| :: IsDigit(b[i])
    requires b != [] && ValueOf(a) > 0
    ensures forall i | 0 <= i < |a + b| :: IsDigit((a + b)[i])
    ensures ValueOf(a + b) > ValueOf(a)
  {
    var k := |b| - 1;
    assert (a + b)[..|a + b| - 1] == a + b[..k];
    if k > 0 {
      MoreDigitsGrow(a, b[..k]);
    } else {
      assert a + b[..k] == a;
    }
  }

  // ------------------------------------------------------------------ the rewriter

  datatype Token = Hole | Lit(c: char)

  // How many leading characters are digits.
  function DigitRun(s: string): (n: nat)
    ensures n <= |s| && (forall i | 0 <= i < n :: IsDigit(s[i])) && (n < |s| ==> !IsDigit(s[n]))
  {
    if s != [] && IsDigit(s[0]) then 1 + DigitRun(s[1..]) else 0
  }

  // What the rewriter sees: an existing number is swallowed together with its `$`.
  function Parse(s: string): seq<Token>
    decreases |s|
  {
    if s == [] then []
    else if s[0] == '$' then [Hole] + Parse(s[1..][DigitRun(s[1..])..])
    else if s[0] == '?' then [Hole] + Parse(s[1..])
    else [Lit(s[0])] + Parse(s[1..])
  }

  function Render(toks: seq<Token>, n: nat): string {
    if toks == [] then []
    else if toks[0].Hole? then "$" + Decimal(n + 1) + Render(toks[1..], n + 1)
    else [toks[0].c] + Render(toks[1..], n)
  }

  // One step of the rewriter, on the text already written.
  lemma WriteHole(out: string, toks: seq<Token>, n: nat)
    ensures out + Render([Hole] + toks, n) == out + ("$" + Decimal(n + 1)) + Render(toks, n + 1)
  {
    assert ([Hole] + toks)[1..] == toks;
    assert Render([Hole] + toks, n) == "$" + Decimal(n + 1) + Render(toks, n + 1);
    hide Render;
    hide Decimal;
  }

  lemma WriteLit(out: string, c: char, toks: seq<Token>, n: nat)
    ensures out + Render([Lit(c)] + toks, n) == out + [c] + Render(toks, n)
  {
    assert ([Lit(c)] + toks)[1..] == toks;
    assert Render([Lit(c)] + toks, n) == [c] + Render(toks, n);
    hide Render;
  }

  lemma ParseAt(sql: string, i: nat)
    requires i < |sql|
    ensures sql[i] == '?' ==> Parse(sql[i..]) == [Hole] + Parse(sql[i + 1..])
    ensures sql[i] == '$' ==> Parse(sql[i..]) == [Hole] + Parse(sql[i + 1 + DigitRun(sql[i + 1..])..])
    ensures sql[i] != '?' && sql[i] != '$' ==> Parse(sql[i..]) == [Lit(sql[i])] + Parse(sql[i + 1..])
  {
    assert sql[i..][1..] == sql[i + 1..];
    assert sql[i + 1..][DigitRun(sql[i + 1..])..] == sql[i + 1 + DigitRun(sql[i + 1..])..];
  }

  // Where a swallowed number ends.
  method SkipDigits(sql: string, start: nat) returns (i: nat)
    requires start <= |sql|
    ensures i == start + DigitRun(sql[start..])
  {
    i := start;
    while i < |sql| && IsDigit(sql[i])
      invariant start <= i <= |sql|
      invariant DigitRun(sql[start..]) == i - start + DigitRun(sql[i..])
    {
      assert sql[i..][1..] == sql[i + 1..];
      i := i + 1;
    }
  }

  lemma NothingLeft(out: string, n: nat)
    ensures out + Render(Parse([]), n) == out
  {
  }

  method Renumber(sql: string) returns (out: string)
    ensures out == Render(Parse(sql), 0)
  {
    hide Render;
    hide Parse;
    hide Decimal;
    hide DigitRun;
    out := [];
    var n, i := 0, 0;
    assert sql[0..] == sql;
    while i < |sql|
      invariant i <= |sql|
      invariant out + Render(Parse(sql[i..]), n) == Render(Parse(sql), 0)
    {
      ParseAt(sql, i);
      var c := sql[i];
      if c == '$' {
        i := SkipDigits(sql, i + 1);
        WriteHole(out, Parse(sql[i..]), n);
        n := n + 1;
        out := out + ("$" + Decimal(n));
      } else if c == '?' {
        i := i + 1;
        WriteHole(out, Parse(sql[i..]), n);
        n := n + 1;
        out := out + ("$" + Decimal(n));
      } else {
        i := i + 1;
        WriteLit(out, c, Parse(sql[i..]), n);
        out := out + [c];
      }
    }
    assert sql[i..] == [];
    NothingLeft(out, n);
  }

  // ------------------------------------------------------------------ how the database reads it

  // `$` and at least one digit is a parameter; everything else, a `?` included, is text.
  datatype Piece = Text(c: char) | Param(k: nat)

  function Read(s: string): seq<Piece>
    decreases |s|
  {
    if s == [] then []
    else
      var n := DigitRun(s[1..]);
      if s[0] == '$' && n > 0 then [Param(ValueOf(s[1..][..n]))] + Read(s[1..][n..])
      else [Text(s[0])] + Read(s[1..])
  }

  // The holes as the parameters 1, 2, ... in order, the rest as text.
  function Meant(toks: seq<Token>, n: nat): seq<Piece> {
    if toks == [] then []
    else if toks[0].Hole? then [Param(n + 1)] + Meant(toks[1..], n + 1)
    else [Text(toks[0].c)] + Meant(toks[1..], n)
  }

  predicate RunsIntoDigit(sql: string, i: nat) {
    i + 1 < |sql| && sql[i] == '?' && IsDigit(sql[i + 1])
  }

  // No `?` is directly followed by a digit: something a caller can check beforehand.
  ghost predicate Separated(sql: string) {
    forall i: nat :: !RunsIntoDigit(sql, i)
  }

  // The same for tokens: no hole is directly followed by a digit.
  predicate Apart(toks: seq<Token>) {
    toks == [] || ((toks[0].Hole? && |toks| > 1 && toks[1].Lit? ==> !IsDigit(toks[1].c)) && Apart(toks[1..]))
  }

  predicate Clean(toks: seq<Token>) {
    forall i | 0 <= i < |toks| :: toks[i].Lit? ==> toks[i].c != '$' && toks[i].c != '?'
  }

  lemma {:induction false} ParseIsClean(s: string)
    ensures Clean(Parse(s))
    decreases |s|
  {
    if s != [] {
      if s[0] == '$' {
        ParseIsClean(s[1..][DigitRun(s[1..])..]);
      } else {
        ParseIsClean(s[1..]);
      }
    }
  }

  // Whether the parsed rest of a text begins with a digit.
  lemma ParseFirst(s: string)
    ensures s == [] <==> Parse(s) == []
    ensures s != [] ==> (Parse(s)[0].Lit? && IsDigit(Parse(s)[0].c) <==> IsDigit(s[0]))
  {
  }

  lemma {:induction false} SeparatedIsApart(s: string)
    ensures Separated(s) <==> Apart(Parse(s))
    decreases |s|
  {
    if s != [] {
      var n := if s[0] == '$' then 1 + DigitRun(s[1..]) else 1;
      assert s[0] == '$' ==> s[1..][n - 1..] == s[n..];
      SeparatedIsApart(s[n..]);
      ParseFirst(s[n..]);
      forall i | 1 <= i < n ensures s[i] != '?' {
        assert s[i] == s[1..][i - 1];
      }
      SeparatedSuffix(s, n);
      hide Separated;
      assert Parse(s)[1..] == Parse(s[n..]);
    }
  }

  // Leaving out leading characters that are not `?` loses nothing, and a leading `?` only what follows it.
  lemma SeparatedSuffix(s: string, n: nat)
    requires 0 < n <= |s| && forall i | 1 <= i < n :: s[i] != '?'
    ensures Separated(s) <==> Separated(s[n..]) && !RunsIntoDigit(s, 0)
  {
    assert forall i: nat :: RunsIntoDigit(s[n..], i) <==> RunsIntoDigit(s, n + i);
    if Separated(s[n..]) && !RunsIntoDigit(s, 0) {
      forall i: nat ensures !RunsIntoDigit(s, i) {
        assert i >= n ==> !RunsIntoDigit(s[n..], i - n);
      }
    }
  }

  // ------------------------------------------------------------------ reading the result

  lemma DigitRunOf(digits: string, rest: string)
    requires forall i | 0 <= i < |digits| :: IsDigit(digits[i])
    ensures DigitRun(digits + rest) == |digits| + DigitRun(rest)
  {
    if digits == [] {
      assert digits + rest == rest;
    } else {
      DigitRunOf(digits[1..], rest);
      assert (digits + rest)[1..] == digits[1..] + rest;
    }
  }

  lemma RenderFirst(toks: seq<Token>, n: nat)
    requires toks != []
    ensures Render(toks, n) != [] && Render(toks, n)[0] == if toks[0].Hole? then '$' else toks[0].c
  {
  }

  // The digits of a rendered hole, together with digits that happen to follow.
  lemma HoleDigits(m: nat, rest: string)
    ensures var s, d := "$" + Decimal(m) + rest, DigitRun(rest);
            && DigitRun(s[1..]) == |Decimal(m)| + d
            && s[1..][..|Decimal(m)| + d] == Decimal(m) + rest[..d]
            && s[1..][|Decimal(m)| + d..] == rest[d..]
  {
    hide Decimal;
    var s := "$" + Decimal(m) + rest;
    assert s[1..] == Decimal(m) + rest;
    DigitRunOf(Decimal(m), rest);
  }

  lemma ReadParam(s: string)
    requires s != [] && s[0] == '$' && DigitRun(s[1..]) > 0
    ensures var n := DigitRun(s[1..]); Read(s) == [Param(ValueOf(s[1..][..n]))] + Read(s[1..][n..])
  {
  }

  // The text of a hole in front of a rest, as the database reads it.
  lemma ReadHole(m: nat, rest: string)
    requires m > 0
    ensures var s, d := "$" + Decimal(m) + rest, DigitRun(rest);
            && Read(s) != [] && Read(s)[0].Param?
            && (d == 0 ==> Read(s) == [Param(m)] + Read(rest))
            && (d > 0 ==> Read(s)[0].k > m)
  {
    hide Read;
    hide Decimal;
    hide ValueOf;
    hide DigitRun;
    var s, d := "$" + Decimal(m) + rest, DigitRun(rest);
    DecimalRoundTrip(m);
    HoleDigits(m, rest);
    ReadParam(s);
    if d > 0 {
      MoreDigitsGrow(Decimal(m), rest[..d]);
    } else {
      assert Decimal(m) + rest[..0] == Decimal(m) && rest[0..] == rest;
    }
  }

  // The database reads the rendered text as meant exactly when no hole runs into a digit.
  lemma {:induction false} ReadRendered(toks: seq<Token>, n: nat)
    requires Clean(toks)
    ensures Read(Render(toks, n)) == Meant(toks, n) <==> Apart(toks)
  {
    if toks != [] {
      var rest := toks[1..];
      assert Clean(rest) by {
        assert forall i | 0 <= i < |rest| :: rest[i] == toks[i + 1];
      }
      if toks[0].Hole? {
        var text := Render(rest, n + 1);
        ReadRendered(rest, n + 1);
        ReadHole(n + 1, text);
        if rest != [] {
          RenderFirst(rest, n + 1);
        }
        assert Meant(toks, n)[0] == Param(n + 1) && Meant(toks, n)[1..] == Meant(rest, n + 1);
        assert DigitRun(text) == 0 ==> Read(Render(toks, n))[1..] == Read(text);
      } else {
        ReadRendered(rest, n);
        assert Render(toks, n)[1..] == Render(rest, n);
        assert Meant(toks, n)[1..] == Meant(rest, n);
        assert Read(Render(toks, n))[1..] == Read(Render(rest, n));
      }
    }
  }

  // ------------------------------------------------------------------ what the caller means

  // A `?`, and a `$` with at least one digit after it, is a placeholder; everything else is text.
  function Intended(s: string): seq<Token>
    decreases |s|
  {
    if s == [] then []
    else
      var n := DigitRun(s[1..]);
      if s[0] == '$' && n > 0 then [Hole] + Intended(s[1..][n..])
      else if s[0] == '?' then [Hole] + Intended(s[1..])
      else [Lit(s[0])] + Intended(s[1..])
  }

  // A `$` without a number.
  predicate BareDollarAt(sql: string, i: nat) {
    i < |sql| && sql[i] == '$' && !(i + 1 < |sql| && IsDigit(sql[i + 1]))
  }

  // Every `$` is followed by a digit: something a caller can check beforehand, too.
  ghost predicate Numbered(sql: string) {
    forall i: nat :: !BareDollarAt(sql, i)
  }

  lemma NumberedSuffix(s: string, n: nat)
    requires 0 < n <= |s| && forall i | 1 <= i < n :: s[i] != '$'
    ensures Numbered(s) <==> Numbered(s[n..]) && !BareDollarAt(s, 0)
  {
    assert forall i: nat :: BareDollarAt(s[n..], i) <==> BareDollarAt(s, n + i);
    if Numbered(s[n..]) && !BareDollarAt(s, 0) {
      forall i: nat ensures !BareDollarAt(s, i) {
        assert i >= n ==> !BareDollarAt(s[n..], i - n);
      }
    }
  }

  // The length of the first token.
  function Width(s: string): (n: nat)
    requires s != []
    ensures 0 < n <= |s| && forall i | 1 <= i < n :: IsDigit(s[i])
  {
    assert forall i | 0 <= i < |s[1..]| :: s[1..][i] == s[i + 1];
    if s[0] == '$' then 1 + DigitRun(s[1..]) else 1
  }

  lemma FirstIntended(s: string)
    requires s != []
    ensures var rest := s[Width(s)..];
            && (s[0] == '$' ==> s[1..][DigitRun(s[1..])..] == rest)
            && Intended(s)
               == [if s[0] == '?' || (s[0] == '$' && Width(s) > 1) then Hole else Lit(s[0])] + Intended(rest)
            && Parse(s) == [if s[0] == '?' || s[0] == '$' then Hole else Lit(s[0])] + Parse(rest)
            && (BareDollarAt(s, 0) <==> s[0] == '$' && Width(s) == 1)
  {
    assert s[0] == '$' ==> s[1..][DigitRun(s[1..])..] == s[Width(s)..];
  }

  // The rewriter finds the placeholders the caller means exactly if no `$` stands without a number.
  lemma {:induction false} ParseAsIntended(s: string)
    ensures Numbered(s) ==> Parse(s) == Intended(s)
    ensures Lit('$') in Intended(s) <==> !Numbered(s)
    decreases |s|
  {
    if s == [] {
      assert Intended(s) == [];
    } else {
      FirstIntended(s);
      var n := Width(s);
      ParseAsIntended(s[n..]);
      NumberedSuffix(s, n);
      hide Numbered;
      hide Parse;
      hide Intended;
    }
  }

  lemma {:induction false} MeantTexts(toks: seq<Token>, n: nat, c: char)
    ensures Text(c) in Meant(toks, n) <==> Lit(c) in toks
  {
    if toks != [] {
      MeantTexts(toks[1..], if toks[0].Hole? then n + 1 else n, c);
      assert toks == [toks[0]] + toks[1..];
    }
  }

  lemma ReadText(s: string)
    requires s != [] && (s[0] != '$' || DigitRun(s[1..]) == 0)
    ensures Read(s) == [Text(s[0])] + Read(s[1..])
  {
  }

  // A rendered text holds no `$` without a number.
  lemma {:induction false} RenderedIsNumbered(toks: seq<Token>, n: nat)
    requires Clean(toks)
    ensures Numbered(Render(toks, n))
  {
    if toks != [] {
      CleanTail(toks, 1);
      if toks[0].Hole? {
        RenderedIsNumbered(toks[1..], n + 1);
        var s, digits := Render(toks, n), Decimal(n + 1);
        assert s == "$" + digits + Render(toks[1..], n + 1);
        assert s[1] == digits[0];
        forall i | 1 <= i <= |digits| ensures s[i] != '$' {
          assert s[i] == digits[i - 1];
        }
        assert s[|digits| + 1..] == Render(toks[1..], n + 1);
        NumberedSuffix(s, |digits| + 1);
      } else {
        RenderedIsNumbered(toks[1..], n);
        var s := Render(toks, n);
        assert s[1..] == Render(toks[1..], n);
        NumberedSuffix(s, 1);
      }
    }
  }

  // The database reads a `$` as text exactly where it has no number.
  lemma {:induction false} ReadDollar(s: string)
    ensures Text('$') in Read(s) <==> !Numbered(s)
    decreases |s|
  {
    if s == [] {
      assert Read(s) == [];
    } else {
      FirstIntended(s);
      var n := Width(s);
      ReadDollar(s[n..]);
      NumberedSuffix(s, n);
      hide Numbered;
      if s[0] == '$' && n > 1 {
        ReadParam(s);
      } else {
        ReadText(s);
      }
      hide Read;
    }
  }

  // Renumbering is faithful: the database sees the caller's placeholders as 1, 2, ... from left to right and all
  // other text unchanged, exactly when no `?` is directly followed by a digit and every `$` is.
  lemma RenumberingIsFaithful(sql: string)
    ensures Read(Render(Parse(sql), 0)) == Meant(Intended(sql), 0) <==> Separated(sql) && Numbered(sql)
  {
    ParseIsClean(sql);
    ReadRendered(Parse(sql), 0);
    SeparatedIsApart(sql);
    ParseAsIntended(sql);
    RenderedIsNumbered(Parse(sql), 0);
    ReadDollar(Render(Parse(sql), 0));
    MeantTexts(Intended(sql), 0, '$');
    hide *;
  }

  // The smallest texts that go wrong.
  lemma QuestionMarkBeforeDigit()
    ensures !Separated("?5") && Render(Parse("?5"), 0) == "$15"
  {
    assert "?5"[1..] == "5" && "5"[1..] == "";
    assert Parse("") == [] && Parse("5") == [Lit('5')] && Parse("?5") == [Hole, Lit('5')];
    assert [Hole, Lit('5')][1..] == [Lit('5')] && [Lit('5')][1..] == [];
    assert Render([], 1) == "" && Render([Lit('5')], 1) == "5";
    assert Decimal(1) == "1";
    assert RunsIntoDigit("?5", 0);
  }

  lemma DollarWithoutNumber()
    ensures Separated("$") && !Numbered("$")
    ensures Read("$") == [Text('$')] == Meant(Intended("$"), 0)
    ensures Render(Parse("$"), 0) == "$1" && Read("$1") == [Param(1)]
  {
    assert "$"[1..] == "" && BareDollarAt("$", 0);
    assert DigitRun("") == 0 && Intended("") == [] && Parse("") == [] && Read("") == [];
    assert Intended("$") == [Lit('$')] && Parse("$") == [Hole];
    assert [Lit('$')][1..] == [] && [Hole][1..] == [];
    assert Decimal(1) == "1" && Render([], 1) == "";
    assert "$1"[1..] == "1" && "1"[1..] == "" && DigitRun("1") == 1 && "1"[..1] == "1" && "1"[1..] == "";
    assert ValueOf("1") == 1 by {
      assert "1"[..0] == "";
    }
  }

  // ------------------------------------------------------------------ renumbering twice

  function Holes(toks: seq<Token>): nat {
    if toks == [] then 0 else (if toks[0].Hole? then 1 else 0) + Holes(toks[1..])
  }

  // Digits that a hole runs into are lost when its text is read back.
  function Squashed(toks: seq<Token>): seq<Token>
    decreases |toks|
  {
    if toks == [] then []
    else if toks[0].Hole? then [Hole] + Squashed(WithoutDigits(toks[1..]))
    else [toks[0]] + Squashed(toks[1..])
  }

  function WithoutDigits(toks: seq<Token>): (r: seq<Token>)
    ensures |r| <= |toks|
  {
    if toks != [] && toks[0].Lit? && IsDigit(toks[0].c) then WithoutDigits(toks[1..]) else toks
  }

  lemma RenderDigit(toks: seq<Token>, n: nat)
    requires toks != [] && toks[0].Lit?
    ensures Render(toks, n) == [toks[0].c] + Render(toks[1..], n)
  {
  }

  lemma SkipDigit(c: char, s: string)
    requires IsDigit(c)
    ensures ([c] + s)[DigitRun([c] + s)..] == s[DigitRun(s)..]
  {
    assert ([c] + s)[1..] == s;
  }

  lemma NothingToSkip(s: string)
    requires s == [] || !IsDigit(s[0])
    ensures s[DigitRun(s)..] == s
  {
  }

  lemma {:induction false} RenderWithoutDigits(toks: seq<Token>, n: nat)
    ensures Render(toks, n)[DigitRun(Render(toks, n))..] == Render(WithoutDigits(toks), n)
  {
    hide DigitRun;
    hide Decimal;
    if toks == [] {
      NothingToSkip(Render(toks, n));
    } else {
      RenderFirst(toks, n);
      if toks[0].Lit? && IsDigit(toks[0].c) {
        RenderDigit(toks, n);
        hide Render;
        RenderWithoutDigits(toks[1..], n);
        SkipDigit(toks[0].c, Render(toks[1..], n));
      } else {
        NothingToSkip(Render(toks, n));
      }
    }
  }

  lemma ParseRenderedHole(m: nat, rest: string)
    ensures Parse("$" + Decimal(m) + rest) == [Hole] + Parse(rest[DigitRun(rest)..])
  {
    hide Decimal;
    hide DigitRun;
    hide Parse;
    HoleDigits(m, rest);
    ParseDollar("$" + Decimal(m) + rest);
  }

  lemma ParseDollar(s: string)
    requires s != [] && s[0] == '$'
    ensures Parse(s) == [Hole] + Parse(s[1..][DigitRun(s[1..])..])
  {
  }

  lemma CleanTail(toks: seq<Token>, n: nat)
    requires Clean(toks) && n <= |toks|
    ensures Clean(toks[n..])
  {
    forall i | 0 <= i < |toks[n..]| ensures toks[n..][i] == toks[n + i] {
    }
  }

  lemma {:induction false} WithoutDigitsIsTail(toks: seq<Token>) returns (n: nat)
    ensures n <= |toks| && WithoutDigits(toks) == toks[n..]
    ensures n == 0 <==> !(toks != [] && toks[0].Lit? && IsDigit(toks[0].c))
  {
    if toks != [] && toks[0].Lit? && IsDigit(toks[0].c) {
      var m := WithoutDigitsIsTail(toks[1..]);
      n := m + 1;
      assert toks[1..][m..] == toks[n..];
    } else {
      n := 0;
    }
  }

  lemma {:induction false} ParseRendered(toks: seq<Token>, n: nat)
    requires Clean(toks)
    ensures Parse(Render(toks, n)) == Squashed(toks)
    decreases |toks|
  {
    if toks != [] {
      CleanTail(toks, 1);
      if toks[0].Hole? {
        var k := WithoutDigitsIsTail(toks[1..]);
        CleanTail(toks[1..], k);
        ParseRendered(WithoutDigits(toks[1..]), n + 1);
        RenderWithoutDigits(toks[1..], n + 1);
        ParseRenderedHole(n + 1, Render(toks[1..], n + 1));
      } else {
        ParseRendered(toks[1..], n);
        assert Render(toks, n)[1..] == Render(toks[1..], n);
      }
    }
  }

  lemma {:induction false} SquashedSize(toks: seq<Token>)
    ensures |Squashed(toks)| <= |toks| && Holes(Squashed(toks)) == Holes(toks)
    ensures Apart(toks) ==> Squashed(toks) == toks
    ensures |Squashed(toks)| == |toks| ==> Apart(toks)
    decreases |toks|
  {
    if toks != [] {
      var rest := toks[1..];
      if toks[0].Hole? {
        var k := WithoutDigitsIsTail(rest);
        SquashedSize(WithoutDigits(rest));
        HolesWithoutDigits(rest);
        assert Squashed(toks)[1..] == Squashed(WithoutDigits(rest));
        assert k == 0 ==> rest[k..] == rest;
      } else {
        SquashedSize(rest);
        assert Squashed(toks)[1..] == Squashed(rest);
      }
    }
  }

  lemma {:induction false} HolesWithoutDigits(toks: seq<Token>)
    ensures Holes(WithoutDigits(toks)) == Holes(toks)
  {
    if toks != [] && toks[0].Lit? && IsDigit(toks[0].c) {
      HolesWithoutDigits(toks[1..]);
    }
  }

  // The length of the rendered text depends only on the numbers of holes and of other tokens.
  function NumberLengths(n: nat, holes: nat): nat
    decreases holes
  {
    if holes == 0 then 0 else 1 + |Decimal(n + 1)| + NumberLengths(n + 1, holes - 1)
  }

  lemma {:induction false} RenderLength(toks: seq<Token>, n: nat)
    ensures Holes(toks) <= |toks|
    ensures |Render(toks, n)| == |toks| - Holes(toks) + NumberLengths(n, Holes(toks))
  {
    if toks != [] {
      RenderLength(toks[1..], if toks[0].Hole? then n + 1 else n);
    }
  }

  // Renumbering a second time changes nothing exactly when no `?` is directly followed by a digit.
  lemma RenumberingIsIdempotent(sql: string)
    ensures var once := Render(Parse(sql), 0); Render(Parse(once), 0) == once <==> Separated(sql)
  {
    var toks := Parse(sql);
    var once := Render(toks, 0);
    ParseIsClean(sql);
    SeparatedIsApart(sql);
    ParseRendered(toks, 0);
    SquashedSize(toks);
    RenderLength(toks, 0);
    RenderLength(Squashed(toks), 0);
  }
}
