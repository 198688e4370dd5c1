/**
 Callers of the placeholder rewriter: the activity list and the attachment update assemble SQL of
 varying length and bind values in textual order. Each statement, as the database executes it, has
 every value in its own place.
 */
module SqlBinds {
  import opened PgParams
  import opened Wrappers

  datatype Bind = Str(s: string) | Num(n: int)

  // An executed statement: its text with the bound values in place.
  datatype Out = Chr(c: char) | Val(b: Bind) | Unbound(k: nat)

  // The database numbers the bound values 1, 2, ... in the order of binding.
  function Executed(pieces: seq<Piece>, binds: seq<Bind>): seq<Out> {
    if pieces == [] then []
    else
      var first := match pieces[0]
        case Text(c) => Chr(c)
        case Param(k) => if 1 <= k <= |binds| then Val(binds[k - 1]) else Unbound(k);
      [first] + Executed(pieces[1..], binds)
  }

  // ------------------------------------------------------------------ statements in segments

  // A piece of fixed text, or a placeholder as it is written together with the value meant for it.
  datatype Segment = Fixed(text: string) | Slot(marker: string, value: Bind)

  function Written(seg: Segment): string {
    if seg.Fixed? then seg.text else seg.marker
  }

  function Bound(seg: Segment): seq<Bind> {
    if seg.Fixed? then [] else [seg.value]
  }

  function SqlOf(segs: seq<Segment>): string {
    if segs == [] then [] else Written(segs[0]) + SqlOf(segs[1..])
  }

  function BindsOf(segs: seq<Segment>): seq<Bind> {
    if segs == [] then [] else Bound(segs[0]) + BindsOf(segs[1..])
  }

  function Chars(s: string): seq<Out> {
    seq(|s|, i requires 0 <= i < |s| => Chr(s[i]))
  }

  // The statement the caller has in mind.
  function ResultOf(segs: seq<Segment>): seq<Out> {
    if segs == [] then []
    else (if segs[0].Fixed? then Chars(segs[0].text) else [Val(segs[0].value)]) + ResultOf(segs[1..])
  }

  // Text without placeholder characters that does not begin with a digit.
  ghost predicate Harmless(s: string) {
    s != [] && !IsDigit(s[0]) && forall i | 0 <= i < |s| :: s[i] != '$' && s[i] != '?'
  }

  ghost predicate Marker(s: string) {
    s == "?" || (|s| > 1 && s[0] == '$' && forall i | 1 <= i < |s| :: IsDigit(s[i]))
  }

  ghost predicate Sound(seg: Segment) {
    if seg.Fixed? then Harmless(seg.text) else Marker(seg.marker)
  }

  ghost predicate WellFormed(segs: seq<Segment>) {
    forall i | 0 <= i < |segs| :: Sound(segs[i])
  }

  function Lits(s: string): seq<Token> {
    seq(|s|, i requires 0 <= i < |s| => Lit(s[i]))
  }

  function TokensOf(segs: seq<Segment>): seq<Token> {
    if segs == [] then []
    else (if segs[0].Fixed? then Lits(segs[0].text) else [Hole]) + TokensOf(segs[1..])
  }

  lemma ParseLit(s: string)
    requires s != [] && s[0] != '$' && s[0] != '?'
    ensures Parse(s) == [Lit(s[0])] + Parse(s[1..])
  {
  }

  lemma {:induction false} ParseFixed(s: string, rest: string)
    requires forall i | 0 <= i < |s| :: s[i] != '$' && s[i] != '?'
    ensures Parse(s + rest) == Lits(s) + Parse(rest)
  {
    hide Parse;
    if s == [] {
      assert s + rest == rest && Lits(s) == [];
    } else {
      ParseFixed(s[1..], rest);
      ParseLit(s + rest);
      assert (s + rest)[1..] == s[1..] + rest;
      assert Lits(s) == [Lit(s[0])] + Lits(s[1..]);
      hide Lits;
      Associate([Lit(s[0])], Lits(s[1..]), Parse(rest));
    }
  }

  lemma ParseMarker(m: string, rest: string)
    requires Marker(m) && (rest == [] || !IsDigit(rest[0]))
    ensures Parse(m + rest) == [Hole] + Parse(rest)
  {
    assert (m + rest)[1..] == m[1..] + rest;
    if m != "?" {
      DigitRunOf(m[1..], rest);
      assert DigitRun(rest) == 0;
      assert (m[1..] + rest)[|m| - 1..] == rest;
    } else {
      assert m[1..] + rest == rest;
    }
  }

  lemma SqlOfFirst(segs: seq<Segment>)
    requires WellFormed(segs)
    ensures SqlOf(segs) == [] || !IsDigit(SqlOf(segs)[0])
  {
  }

  lemma WellFormedTail(segs: seq<Segment>)
    requires WellFormed(segs) && segs != []
    ensures WellFormed(segs[1..])
  {
    assert forall i | 0 <= i < |segs[1..]| :: segs[1..][i] == segs[i + 1];
  }

  lemma {:induction false} ParseSegments(segs: seq<Segment>)
    requires WellFormed(segs)
    ensures Parse(SqlOf(segs)) == TokensOf(segs)
  {
    if segs != [] {
      WellFormedTail(segs);
      ParseSegments(segs[1..]);
      if segs[0].Fixed? {
        ParseFixed(segs[0].text, SqlOf(segs[1..]));
      } else {
        SqlOfFirst(segs[1..]);
        ParseMarker(segs[0].marker, SqlOf(segs[1..]));
      }
    }
  }

  lemma {:induction false} ApartAfterLits(s: string, toks: seq<Token>)
    requires Apart(toks)
    ensures Apart(Lits(s) + toks)
  {
    if s == [] {
      assert Lits(s) + toks == toks;
    } else {
      ApartAfterLits(s[1..], toks);
      assert (Lits(s) + toks)[1..] == Lits(s[1..]) + toks;
    }
  }

  lemma {:induction false} SegmentsAreApart(segs: seq<Segment>)
    requires WellFormed(segs)
    ensures Apart(TokensOf(segs))
    ensures TokensOf(segs) != [] && TokensOf(segs)[0].Lit? ==> !IsDigit(TokensOf(segs)[0].c)
  {
    if segs != [] {
      WellFormedTail(segs);
      SegmentsAreApart(segs[1..]);
      if segs[0].Fixed? {
        ApartAfterLits(segs[0].text, TokensOf(segs[1..]));
      } else {
        assert TokensOf(segs)[1..] == TokensOf(segs[1..]);
      }
    }
  }

  lemma ExecutedLit(c: char, toks: seq<Token>, n: nat, binds: seq<Bind>)
    ensures Executed(Meant([Lit(c)] + toks, n), binds) == [Chr(c)] + Executed(Meant(toks, n), binds)
  {
    assert ([Lit(c)] + toks)[1..] == toks;
    var pieces := Meant([Lit(c)] + toks, n);
    assert pieces == [Text(c)] + Meant(toks, n) && pieces[1..] == Meant(toks, n);
  }

  lemma ExecutedHole(toks: seq<Token>, n: nat, binds: seq<Bind>)
    requires n < |binds|
    ensures Executed(Meant([Hole] + toks, n), binds) == [Val(binds[n])] + Executed(Meant(toks, n + 1), binds)
  {
    assert ([Hole] + toks)[1..] == toks;
    var pieces := Meant([Hole] + toks, n);
    assert pieces == [Param(n + 1)] + Meant(toks, n + 1) && pieces[1..] == Meant(toks, n + 1);
  }

  lemma {:induction false} ExecutedLits(s: string, toks: seq<Token>, n: nat, binds: seq<Bind>)
    ensures Executed(Meant(Lits(s) + toks, n), binds) == Chars(s) + Executed(Meant(toks, n), binds)
  {
    hide Executed;
    hide Meant;
    if s == [] {
      assert Lits(s) + toks == toks && Chars(s) == [];
    } else {
      ExecutedLits(s[1..], toks, n, binds);
      ExecutedLit(s[0], Lits(s[1..]) + toks, n, binds);
      assert Lits(s) + toks == [Lit(s[0])] + (Lits(s[1..]) + toks);
      assert Chars(s) == [Chr(s[0])] + Chars(s[1..]);
    }
  }

  lemma TakeApart(segs: seq<Segment>)
    requires segs != []
    ensures segs[0].Fixed? ==>
              && SqlOf(segs) == segs[0].text + SqlOf(segs[1..])
              && TokensOf(segs) == Lits(segs[0].text) + TokensOf(segs[1..])
              && BindsOf(segs) == BindsOf(segs[1..])
              && ResultOf(segs) == Chars(segs[0].text) + ResultOf(segs[1..])
    ensures segs[0].Slot? ==>
              && SqlOf(segs) == segs[0].marker + SqlOf(segs[1..])
              && TokensOf(segs) == [Hole] + TokensOf(segs[1..])
              && BindsOf(segs) == [segs[0].value] + BindsOf(segs[1..])
              && ResultOf(segs) == [Val(segs[0].value)] + ResultOf(segs[1..])
  {
  }

  // Holes take the values in order, whatever was bound before.
  lemma {:induction false} ExecutedSegments(segs: seq<Segment>, before: seq<Bind>)
    ensures Executed(Meant(TokensOf(segs), |before|), before + BindsOf(segs)) == ResultOf(segs)
  {
    if segs != [] {
      hide *;
      TakeApart(segs);
      var rest := segs[1..];
      if segs[0].Fixed? {
        ExecutedSegments(rest, before);
        ExecutedLits(segs[0].text, TokensOf(rest), |before|, before + BindsOf(rest));
      } else {
        var v := segs[0].value;
        ExecutedSegments(rest, before + [v]);
        Associate(before, [v], BindsOf(rest));
        ExecutedHole(TokensOf(rest), |before|, before + ([v] + BindsOf(rest)));
      }
    }
  }

  // A renumbered statement executes with every value at its own placeholder.
  lemma SegmentsBindCorrectly(segs: seq<Segment>)
    requires WellFormed(segs)
    ensures Executed(Read(Render(Parse(SqlOf(segs)), 0)), BindsOf(segs)) == ResultOf(segs)
  {
    ParseSegments(segs);
    SegmentsAreApart(segs);
    ParseIsClean(SqlOf(segs));
    ReadRendered(TokensOf(segs), 0);
    ExecutedSegments(segs, []);
    assert [] + BindsOf(segs) == BindsOf(segs);
  }

  // ------------------------------------------------------------------ putting segments together

  lemma WellFormedConcat(a: seq<Segment>, b: seq<Segment>)
    requires WellFormed(a) && WellFormed(b)
    ensures WellFormed(a + b)
  {
  }

  lemma Unfold(segs: seq<Segment>)
    requires segs != []
    ensures SqlOf(segs) == Written(segs[0]) + SqlOf(segs[1..])
    ensures BindsOf(segs) == Bound(segs[0]) + BindsOf(segs[1..])
  {
  }

  lemma SplitHead(a: seq<Segment>, b: seq<Segment>)
    requires a != []
    ensures (a + b)[0] == a[0] && (a + b)[1..] == a[1..] + b
  {
  }

  lemma {:induction false} ConcatSql(a: seq<Segment>, b: seq<Segment>)
    ensures SqlOf(a + b) == SqlOf(a) + SqlOf(b)
  {
    if a == [] {
      assert a + b == b;
    } else {
      hide *;
      SplitHead(a, b);
      ConcatSql(a[1..], b);
      Unfold(a);
      Unfold(a + b);
      Associate(Written(a[0]), SqlOf(a[1..]), SqlOf(b));
    }
  }

  lemma {:induction false} ConcatBinds(a: seq<Segment>, b: seq<Segment>)
    ensures BindsOf(a + b) == BindsOf(a) + BindsOf(b)
  {
    if a == [] {
      assert a + b == b;
    } else {
      hide *;
      SplitHead(a, b);
      ConcatBinds(a[1..], b);
      Unfold(a);
      Unfold(a + b);
      Associate(Bound(a[0]), BindsOf(a[1..]), BindsOf(b));
    }
  }

  lemma ConcatSegments(a: seq<Segment>, b: seq<Segment>)
    ensures SqlOf(a + b) == SqlOf(a) + SqlOf(b)
    ensures BindsOf(a + b) == BindsOf(a) + BindsOf(b)
  {
    hide *;
    ConcatSql(a, b);
    ConcatBinds(a, b);
  }

  // `conds.join(sep)`.
  function Join(parts: seq<string>, sep: string): string {
    if parts == [] then []
    else if |parts| == 1 then parts[0]
    else Join(parts[..|parts| - 1], sep) + sep + parts[|parts| - 1]
  }

  function JoinSegments(parts: seq<seq<Segment>>, sep: string): seq<Segment> {
    if parts == [] then []
    else if |parts| == 1 then parts[0]
    else JoinSegments(parts[..|parts| - 1], sep) + [Fixed(sep)] + parts[|parts| - 1]
  }

  function FlatBinds(parts: seq<seq<Segment>>): seq<Bind> {
    if parts == [] then [] else FlatBinds(parts[..|parts| - 1]) + BindsOf(parts[|parts| - 1])
  }

  lemma SqlOfFixed(text: string)
    ensures SqlOf([Fixed(text)]) == text && BindsOf([Fixed(text)]) == []
  {
    assert [Fixed(text)][1..] == [];
  }

  lemma JoinedUnfold(parts: seq<seq<Segment>>, texts: seq<string>, sep: string)
    requires |parts| == |texts| > 1
    ensures var k := |parts| - 1;
            && JoinSegments(parts, sep) == JoinSegments(parts[..k], sep) + [Fixed(sep)] + parts[k]
            && Join(texts, sep) == Join(texts[..k], sep) + sep + texts[k]
            && FlatBinds(parts) == FlatBinds(parts[..k]) + BindsOf(parts[k])
  {
  }

  lemma {:induction false} JoinedSegments(parts: seq<seq<Segment>>, texts: seq<string>, sep: string)
    requires |parts| == |texts| && forall i | 0 <= i < |parts| :: texts[i] == SqlOf(parts[i])
    ensures SqlOf(JoinSegments(parts, sep)) == Join(texts, sep)
    ensures BindsOf(JoinSegments(parts, sep)) == FlatBinds(parts)
  {
    if |parts| == 0 {
      assert SqlOf([]) == [] && BindsOf([]) == [];
    } else if |parts| == 1 {
      assert FlatBinds(parts[..0]) == [];
      assert FlatBinds(parts) == [] + BindsOf(parts[0]);
    } else {
      hide *;
      var k := |parts| - 1;
      JoinedSegments(parts[..k], texts[..k], sep);
      JoinedUnfold(parts, texts, sep);
      var left := JoinSegments(parts[..k], sep);
      ConcatSegments(left, [Fixed(sep)]);
      ConcatSegments(left + [Fixed(sep)], parts[k]);
      SqlOfFixed(sep);
      assert BindsOf(left) + [] == BindsOf(left);
    }
  }

  lemma {:induction false} JoinedWellFormed(parts: seq<seq<Segment>>, sep: string)
    requires Harmless(sep) && forall i | 0 <= i < |parts| :: WellFormed(parts[i])
    ensures WellFormed(JoinSegments(parts, sep))
  {
    if |parts| > 1 {
      var k := |parts| - 1;
      JoinedWellFormed(parts[..k], sep);
      var left := JoinSegments(parts[..k], sep);
      assert WellFormed([Fixed(sep)]);
      hide WellFormed;
      WellFormedConcat(left, [Fixed(sep)]);
      WellFormedConcat(left + [Fixed(sep)], parts[k]);
    }
  }

  // ------------------------------------------------------------------ the activity list

  datatype ListFilter = ListFilter(
    userId: Option<string>,
    action: Option<string>,
    resourceType: Option<string>,
    start: Option<string>,
    end: Option<string>)

  const CAST := ")::timestamptz"

  function Condition(before: string, value: Option<string>, after: string): seq<seq<Segment>> {
    if value.None? then []
    else [[Fixed(before), Slot("?", Str(value.value))] + Ending(after)]
  }

  function Ending(after: string): seq<Segment> {
    if after == "" then [] else [Fixed(after)]
  }

  // One condition per given filter field.
  function Conditions(f: ListFilter): seq<seq<Segment>> {
    Condition("agent_id = ", f.userId, "") +
    Condition("action = ", f.action, "") +
    Condition("resource_type = ", f.resourceType, "") +
    Condition("(created_at)::timestamptz >= (", f.start, CAST) +
    Condition("(created_at)::timestamptz <= (", f.end, CAST)
  }

  function WhereSegments(f: ListFilter): seq<Segment> {
    ClauseOf(Conditions(f))
  }

  function ClauseOf(parts: seq<seq<Segment>>): seq<Segment> {
    if parts == [] then [] else [Fixed(" WHERE ")] + JoinSegments(parts, " AND ")
  }

  lemma ConditionText(before: string, value: Option<string>, after: string)
    requires value.Some?
    ensures SqlOf(Condition(before, value, after)[0]) == before + "?" + after
    ensures BindsOf(Condition(before, value, after)[0]) == [Str(value.value)]
    ensures Harmless(before) && (after == "" || Harmless(after)) ==> WellFormed(Condition(before, value, after)[0])
  {
    var slot := Slot("?", Str(value.value));
    assert Condition(before, value, after)[0] == [Fixed(before)] + ([slot] + Ending(after));
    assert Sound(slot);
    hide *;
    EndingText(after);
    Front(slot, Ending(after));
    Front(Fixed(before), [slot] + Ending(after));
    ConditionParts(before, slot, after);
  }

  lemma EndingText(after: string)
    ensures SqlOf(Ending(after)) == after && BindsOf(Ending(after)) == []
    ensures after == "" || Harmless(after) ==> WellFormed(Ending(after))
  {
    SqlOfFixed(after);
  }

  lemma ConditionParts(before: string, slot: Segment, after: string)
    requires slot.Slot?
    ensures Written(Fixed(before)) + (Written(slot) + after) == before + slot.marker + after
    ensures Bound(Fixed(before)) + (Bound(slot) + []) == [slot.value]
    ensures Harmless(before) ==> Sound(Fixed(before))
  {
    hide Harmless;
  }

  method JoinStrings(parts: seq<string>, sep: string) returns (s: string)
    ensures s == Join(parts, sep)
  {
    s := [];
    for i := 0 to |parts|
      invariant s == Join(parts[..i], sep)
    {
      assert parts[..i + 1][..i] == parts[..i];
      s := if i == 0 then parts[0] else s + sep + parts[i];
    }
    assert parts[..|parts|] == parts;
  }

  // The state of the two lists the clause is built in, against the conditions meant so far.
  ghost predicate Built(parts: seq<seq<Segment>>, conds: seq<string>, binds: seq<Bind>) {
    && |parts| == |conds|
    && (forall i | 0 <= i < |parts| :: conds[i] == SqlOf(parts[i]) && WellFormed(parts[i]))
    && binds == FlatBinds(parts)
  }

  lemma PushCondition(parts: seq<seq<Segment>>, conds: seq<string>, binds: seq<Bind>,
                      before: string, value: Option<string>, after: string)
    requires Built(parts, conds, binds) && value.Some?
    requires Harmless(before) && (after == "" || Harmless(after))
    ensures Built(parts + Condition(before, value, after), conds + [before + "?" + after], binds + [Str(value.value)])
  {
    ConditionText(before, value, after);
    var longer := parts + Condition(before, value, after);
    assert longer[..|longer| - 1] == parts;
    hide WellFormed;
    hide SqlOf;
    hide BindsOf;
  }

  // One condition of the clause, whether or not its filter field is given.
  lemma NextCondition(parts: seq<seq<Segment>>, conds: seq<string>, binds: seq<Bind>, text: string,
                      before: string, value: Option<string>, after: string)
    requires Built(parts, conds, binds) && text == before + "?" + after
    requires Harmless(before) && (after == "" || Harmless(after))
    ensures value.Some? ==> Built(parts + Condition(before, value, after), conds + [text], binds + [Str(value.value)])
    ensures value.None? ==> Built(parts + Condition(before, value, after), conds, binds)
  {
    if value.Some? {
      PushCondition(parts, conds, binds, before, value, after);
    } else {
      assert parts + Condition(before, value, after) == parts;
    }
  }

  lemma ConditionTexts()
    ensures "agent_id = ?" == "agent_id = " + "?" + ""
    ensures "action = ?" == "action = " + "?" + ""
    ensures "resource_type = ?" == "resource_type = " + "?" + ""
    ensures "(created_at)::timestamptz >= (?)::timestamptz" == "(created_at)::timestamptz >= (" + "?" + CAST
    ensures "(created_at)::timestamptz <= (?)::timestamptz" == "(created_at)::timestamptz <= (" + "?" + CAST
  {
  }

  lemma FixedTextsAreHarmless()
    ensures Harmless("agent_id = ") && Harmless("action = ") && Harmless("resource_type = ")
    ensures Harmless("(created_at)::timestamptz >= (") && Harmless("(created_at)::timestamptz <= (") && Harmless(CAST)
    ensures Harmless(" WHERE ") && Harmless(" AND ")
  {
  }

  method WhereClause(f: ListFilter) returns (w: string, binds: seq<Bind>)
    ensures w == SqlOf(WhereSegments(f)) && binds == BindsOf(WhereSegments(f)) && WellFormed(WhereSegments(f))
  {
    hide *;
    FixedTextsAreHarmless();
    ConditionTexts();
    NothingBuilt();
    var conds: seq<string> := [];
    binds := [];
    ghost var parts: seq<seq<Segment>> := [];
    NextCondition(parts, conds, binds, "agent_id = ?", "agent_id = ", f.userId, "");
    if f.userId.Some? {
      conds, binds := conds + ["agent_id = ?"], binds + [Str(f.userId.value)];
    }
    parts := parts + Condition("agent_id = ", f.userId, "");
    NextCondition(parts, conds, binds, "action = ?", "action = ", f.action, "");
    if f.action.Some? {
      conds, binds := conds + ["action = ?"], binds + [Str(f.action.value)];
    }
    parts := parts + Condition("action = ", f.action, "");
    NextCondition(parts, conds, binds, "resource_type = ?", "resource_type = ", f.resourceType, "");
    if f.resourceType.Some? {
      conds, binds := conds + ["resource_type = ?"], binds + [Str(f.resourceType.value)];
    }
    parts := parts + Condition("resource_type = ", f.resourceType, "");
    NextCondition(parts, conds, binds, "(created_at)::timestamptz >= (?)::timestamptz",
                  "(created_at)::timestamptz >= (", f.start, CAST);
    if f.start.Some? {
      conds, binds := conds + ["(created_at)::timestamptz >= (?)::timestamptz"], binds + [Str(f.start.value)];
    }
    parts := parts + Condition("(created_at)::timestamptz >= (", f.start, CAST);
    NextCondition(parts, conds, binds, "(created_at)::timestamptz <= (?)::timestamptz",
                  "(created_at)::timestamptz <= (", f.end, CAST);
    if f.end.Some? {
      conds, binds := conds + ["(created_at)::timestamptz <= (?)::timestamptz"], binds + [Str(f.end.value)];
    }
    parts := parts + Condition("(created_at)::timestamptz <= (", f.end, CAST);
    ConditionsInOrder(f);
    BuiltClause(Conditions(f), conds, binds);
    if conds == [] {
      w := "";
    } else {
      var joined := JoinStrings(conds, " AND ");
      w := " WHERE " + joined;
    }
  }

  lemma ConditionsInOrder(f: ListFilter)
    ensures [] + Condition("agent_id = ", f.userId, "") + Condition("action = ", f.action, "")
            + Condition("resource_type = ", f.resourceType, "")
            + Condition("(created_at)::timestamptz >= (", f.start, CAST)
            + Condition("(created_at)::timestamptz <= (", f.end, CAST) == Conditions(f)
    ensures WhereSegments(f) == ClauseOf(Conditions(f))
  {
    hide Condition;
    hide ClauseOf;
    assert [] + Condition("agent_id = ", f.userId, "") == Condition("agent_id = ", f.userId, "");
  }

  lemma NothingBuilt()
    ensures Built([], [], [])
  {
  }

  lemma BuiltClause(parts: seq<seq<Segment>>, conds: seq<string>, binds: seq<Bind>)
    requires Built(parts, conds, binds)
    ensures SqlOf(ClauseOf(parts)) == if conds == [] then "" else " WHERE " + Join(conds, " AND ")
    ensures BindsOf(ClauseOf(parts)) == binds && WellFormed(ClauseOf(parts))
  {
    JoinedSegments(parts, conds, " AND ");
    FixedTextsAreHarmless();
    JoinedWellFormed(parts, " AND ");
    hide Join;
    hide JoinSegments;
    if parts == [] {
      assert SqlOf([]) == [] && BindsOf([]) == [] && FlatBinds([]) == [];
    } else {
      ConcatSegments([Fixed(" WHERE ")], JoinSegments(parts, " AND "));
      SqlOfFixed(" WHERE ");
      assert WellFormed([Fixed(" WHERE ")]);
      WellFormedConcat([Fixed(" WHERE ")], JoinSegments(parts, " AND "));
    }
  }

  lemma Front(seg: Segment, rest: seq<Segment>)
    ensures SqlOf([seg] + rest) == Written(seg) + SqlOf(rest)
    ensures BindsOf([seg] + rest) == Bound(seg) + BindsOf(rest)
    ensures Sound(seg) && WellFormed(rest) ==> WellFormed([seg] + rest)
  {
    hide Sound;
    assert ([seg] + rest)[1..] == rest;
  }

  lemma Single(seg: Segment)
    ensures SqlOf([seg]) == Written(seg) && BindsOf([seg]) == Bound(seg)
    ensures Sound(seg) ==> WellFormed([seg])
  {
    hide Sound;
    assert [seg][1..] == [];
  }

  // Two placeholders, each after a text of its own.
  function PageSegments(a: string, first: Bind, b: string, second: Bind): seq<Segment> {
    [Fixed(a), Slot("$1", first), Fixed(b), Slot("$2", second)]
  }

  lemma PageText(a: string, first: Bind, b: string, second: Bind)
    requires Harmless(a) && Harmless(b)
    ensures var segs := PageSegments(a, first, b, second);
            && SqlOf(segs) == a + ("$1" + (b + "$2"))
            && BindsOf(segs) == [first] + [second]
            && WellFormed(segs)
  {
    assert Sound(Fixed(a)) && Sound(Fixed(b)) && Sound(Slot("$1", first)) && Sound(Slot("$2", second));
    assert [] + ([first] + ([] + [second])) == [first] + [second];
    hide SqlOf;
    hide BindsOf;
    hide WellFormed;
    hide Sound;
    hide Harmless;
    var last := [Slot("$2", second)];
    Single(Slot("$2", second));
    Front(Fixed(b), last);
    Front(Slot("$1", first), [Fixed(b)] + last);
    Front(Fixed(a), [Slot("$1", first)] + ([Fixed(b)] + last));
    assert PageSegments(a, first, b, second) == [Fixed(a)] + ([Slot("$1", first)] + ([Fixed(b)] + last));
  }

  // Any clause between a fixed beginning and a page of results.
  lemma AroundClause(head: string, clause: seq<Segment>, a: string, first: Bind, b: string, second: Bind)
    requires Harmless(head) && WellFormed(clause) && Harmless(a) && Harmless(b)
    ensures var segs := [Fixed(head)] + (clause + PageSegments(a, first, b, second));
            && SqlOf(segs) == head + SqlOf(clause) + a + "$1" + b + "$2"
            && BindsOf(segs) == BindsOf(clause) + [first] + [second]
            && WellFormed(segs)
  {
    assert Sound(Fixed(head));
    hide *;
    PageText(a, first, b, second);
    var page := PageSegments(a, first, b, second);
    ConcatSegments(clause, page);
    WellFormedConcat(clause, page);
    Front(Fixed(head), clause + page);
    FlattenText(head, SqlOf(clause), a, "$1", b, "$2");
    FlattenBinds(Fixed(head), BindsOf(clause), [first], [second]);
  }

  lemma FlattenText(h: string, w: string, a: string, p: string, b: string, q: string)
    ensures Written(Fixed(h)) + (w + (a + (p + (b + q)))) == h + w + a + p + b + q
  {
  }

  lemma FlattenBinds(head: Segment, w: seq<Bind>, p: seq<Bind>, q: seq<Bind>)
    requires head.Fixed?
    ensures Bound(head) + (w + (p + q)) == w + p + q
  {
  }

  const SELECT := "SELECT * FROM activity_logs"
  const ORDER := " ORDER BY (created_at)::timestamptz" + " DESC, id DESC LIMIT "
  const OFFSET := " OFFSET "

  lemma PageTextsAreHarmless()
    ensures Harmless(SELECT) && Harmless(ORDER) && Harmless(OFFSET)
  {
    var order, limit := " ORDER BY (created_at)::timestamptz", " DESC, id DESC LIMIT ";
    assert Harmless(order) && Harmless(limit);
    HarmlessConcat(order, limit);
  }

  lemma HarmlessConcat(s: string, t: string)
    requires Harmless(s) && Harmless(t)
    ensures Harmless(s + t)
  {
  }

  function ListSegments(f: ListFilter, page: int, limit: int): seq<Segment> {
    [Fixed(SELECT)] + (WhereSegments(f) + PageSegments(ORDER, Num(limit), OFFSET, Num((page - 1) * limit)))
  }

  // The whole query of one page, as it is handed to the database.
  method ListQuery(f: ListFilter, page: int, limit: int) returns (sql: string, binds: seq<Bind>)
    ensures Executed(Read(sql), binds) == ResultOf(ListSegments(f, page, limit))
  {
    hide *;
    var w;
    w, binds := WhereClause(f);
    sql := Renumber(SELECT + w + ORDER + "$1" + OFFSET + "$2");
    binds := binds + [Num(limit)] + [Num((page - 1) * limit)];
    PageTextsAreHarmless();
    AroundClause(SELECT, WhereSegments(f), ORDER, Num(limit), OFFSET, Num((page - 1) * limit));
    ListUnfold(f, page, limit);
    SegmentsBindCorrectly(ListSegments(f, page, limit));
  }

  const COUNT := "SELECT COUNT(*) FROM activity_logs"

  function CountSegments(f: ListFilter): seq<Segment> {
    [Fixed(COUNT)] + WhereSegments(f)
  }

  // The query for the total, with the same clause.
  method CountQuery(f: ListFilter) returns (sql: string, binds: seq<Bind>)
    ensures Executed(Read(sql), binds) == ResultOf(CountSegments(f))
  {
    hide *;
    var w;
    w, binds := WhereClause(f);
    sql := Renumber(COUNT + w);
    CountText(f);
    SegmentsBindCorrectly(CountSegments(f));
  }

  lemma CountText(f: ListFilter)
    requires WellFormed(WhereSegments(f))
    ensures SqlOf(CountSegments(f)) == COUNT + SqlOf(WhereSegments(f))
    ensures BindsOf(CountSegments(f)) == BindsOf(WhereSegments(f)) && WellFormed(CountSegments(f))
  {
    hide SqlOf;
    hide BindsOf;
    hide WellFormed;
    hide WhereSegments;
    Front(Fixed(COUNT), WhereSegments(f));
    assert [] + BindsOf(WhereSegments(f)) == BindsOf(WhereSegments(f));
  }

  lemma ListUnfold(f: ListFilter, page: int, limit: int)
    ensures ListSegments(f, page, limit)
         == [Fixed(SELECT)] + (WhereSegments(f) + PageSegments(ORDER, Num(limit), OFFSET, Num((page - 1) * limit)))
  {
  }

  // ------------------------------------------------------------------ attachments of a new message

  const UPDATE_HEAD := "UPDATE attachments SET message_id = "
  const UPDATE_IN := "\n                 WHERE id IN ("
  const UPDATE_TAIL := ") AND message_id IS NULL"

  function IdSegments(ids: seq<string>): seq<seq<Segment>> {
    seq(|ids|, i requires 0 <= i < |ids| => [Slot("?", Str(ids[i]))])
  }

  function UpdateSegments(messageId: string, ids: seq<string>): seq<Segment> {
    Around(UPDATE_HEAD, Str(messageId), UPDATE_IN, JoinSegments(IdSegments(ids), ", "), UPDATE_TAIL)
  }

  function Around(a: string, first: Bind, b: string, list: seq<Segment>, c: string): seq<Segment> {
    [Fixed(a)] + ([Slot("$1", first)] + ([Fixed(b)] + (list + [Fixed(c)])))
  }

  lemma AroundList(a: string, first: Bind, b: string, list: seq<Segment>, c: string)
    requires Harmless(a) && Harmless(b) && Harmless(c) && WellFormed(list)
    ensures var segs := Around(a, first, b, list, c);
            && SqlOf(segs) == a + "$1" + b + SqlOf(list) + c
            && BindsOf(segs) == [first] + BindsOf(list)
            && WellFormed(segs)
  {
    assert Sound(Fixed(a)) && Sound(Fixed(b)) && Sound(Fixed(c)) && Sound(Slot("$1", first));
    hide *;
    Single(Fixed(c));
    ConcatSegments(list, [Fixed(c)]);
    WellFormedConcat(list, [Fixed(c)]);
    var tail := list + [Fixed(c)];
    Front(Fixed(b), tail);
    Front(Slot("$1", first), [Fixed(b)] + tail);
    Front(Fixed(a), [Slot("$1", first)] + ([Fixed(b)] + tail));
    AroundUnfold(a, first, b, list, c);
    FlattenList(Fixed(a), Slot("$1", first), Fixed(b), SqlOf(list), BindsOf(list), Fixed(c));
  }

  lemma AroundUnfold(a: string, first: Bind, b: string, list: seq<Segment>, c: string)
    ensures Around(a, first, b, list, c) == [Fixed(a)] + ([Slot("$1", first)] + ([Fixed(b)] + (list + [Fixed(c)])))
  {
  }

  lemma FlattenList(a: Segment, p: Segment, b: Segment, text: string, binds: seq<Bind>, c: Segment)
    requires a.Fixed? && p.Slot? && b.Fixed? && c.Fixed?
    ensures Written(a) + (Written(p) + (Written(b) + (text + Written(c)))) == a.text + p.marker + b.text + text + c.text
    ensures Bound(a) + (Bound(p) + (Bound(b) + (binds + Bound(c)))) == [p.value] + binds
  {
  }

  // The number of attachment ids decides how many placeholders there are.
  method AttachmentUpdate(messageId: string, ids: seq<string>) returns (sql: string, binds: seq<Bind>)
    requires ids != []
    ensures Executed(Read(sql), binds) == ResultOf(UpdateSegments(messageId, ids))
  {
    var marks := seq(|ids|, i => "?");
    var placeholders := JoinStrings(marks, ", ");
    sql := Renumber(UPDATE_HEAD + "$1" + UPDATE_IN + placeholders + UPDATE_TAIL);
    binds := [Str(messageId)];
    for i := 0 to |ids|
      invariant binds == [Str(messageId)] + FlatBinds(IdSegments(ids[..i]))
    {
      IdSegmentsSnoc(ids, i);
      binds := binds + [Str(ids[i])];
    }
    assert ids[..|ids|] == ids;
    UpdateText(messageId, ids, marks);
    SegmentsBindCorrectly(UpdateSegments(messageId, ids));
  }

  lemma OneSlot(marker: string, b: Bind)
    ensures SqlOf([Slot(marker, b)]) == marker && BindsOf([Slot(marker, b)]) == [b]
  {
    assert [Slot(marker, b)][1..] == [];
  }

  lemma IdSegmentsSnoc(ids: seq<string>, i: nat)
    requires i < |ids|
    ensures FlatBinds(IdSegments(ids[..i + 1])) == FlatBinds(IdSegments(ids[..i])) + [Str(ids[i])]
  {
    var parts := IdSegments(ids[..i + 1]);
    assert parts[..i] == IdSegments(ids[..i]);
    assert parts[i] == [Slot("?", Str(ids[i]))];
    OneSlot("?", Str(ids[i]));
  }

  lemma UpdateTextsAreHarmless()
    ensures Harmless(UPDATE_HEAD) && Harmless(UPDATE_IN) && Harmless(UPDATE_TAIL) && Harmless(", ")
  {
  }

  lemma MarkersAreSlots(ids: seq<string>, marks: seq<string>)
    requires |marks| == |ids| && forall i | 0 <= i < |marks| :: marks[i] == "?"
    ensures var parts := IdSegments(ids);
            |parts| == |marks| && forall i | 0 <= i < |parts| :: marks[i] == SqlOf(parts[i]) && WellFormed(parts[i])
  {
    var parts := IdSegments(ids);
    forall i | 0 <= i < |parts| ensures marks[i] == SqlOf(parts[i]) && WellFormed(parts[i]) {
      OneSlot("?", Str(ids[i]));
    }
  }

  lemma UpdateText(messageId: string, ids: seq<string>, marks: seq<string>)
    requires |marks| == |ids| && forall i | 0 <= i < |marks| :: marks[i] == "?"
    ensures var segs := UpdateSegments(messageId, ids);
            && SqlOf(segs) == UPDATE_HEAD + "$1" + UPDATE_IN + Join(marks, ", ") + UPDATE_TAIL
            && BindsOf(segs) == [Str(messageId)] + FlatBinds(IdSegments(ids))
            && WellFormed(segs)
  {
    assert UpdateSegments(messageId, ids)
        == Around(UPDATE_HEAD, Str(messageId), UPDATE_IN, JoinSegments(IdSegments(ids), ", "), UPDATE_TAIL);
    hide *;
    UpdateTextsAreHarmless();
    MarkersAreSlots(ids, marks);
    JoinedSegments(IdSegments(ids), marks, ", ");
    JoinedWellFormed(IdSegments(ids), ", ");
    AroundList(UPDATE_HEAD, Str(messageId), UPDATE_IN, JoinSegments(IdSegments(ids), ", "), UPDATE_TAIL);
  }
}
