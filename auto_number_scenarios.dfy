/** Whole runs over small decks, for any text around the id fields that does
    not contain the letter 'i' (so no `id: "` can hide in it). */
module AutoNumberScenarios {
  import opened Digits
  import opened DateId
  import opened TextReplace
  import opened AutoNumber

  /** Text without the letter 'i'. */
  predicate Plain(s: string) {
    forall k :: 0 <= k < |s| ==> s[k] != 'i'
  }

  lemma IdPatternShape(x: string)
    ensures |IdPattern(x)| == |x| + 6 && IdPattern(x)[0] == 'i'
    ensures forall k :: 0 <= k < |x| ==> IdPattern(x)[5 + k] == x[k]
    ensures IdPattern(x)[5 + |x|] == '"'
    ensures Plain(x) ==> Plain(IdPattern(x)[1..])
  {
    var p := IdPattern(x);
    assert p == "id: \"" + x + "\"";
    if Plain(x) {
      forall k | 0 <= k < |p[1..]| ensures p[1..][k] != 'i' {
        if k + 1 >= 5 && k + 1 < 5 + |x| {
          assert p[k + 1] == x[k + 1 - 5];
        }
      }
    }
  }

  lemma DigitsArePlain(s: string)
    requires AllDigits(s)
    ensures Plain(s)
  {
  }

  /** No occurrence of an id pattern can start on a character other than 'i'. */
  lemma NoMatchScan(text: string, pat: string, lo: nat, hi: nat)
    requires |pat| > 0 && pat[0] == 'i' && lo <= hi <= |text|
    requires forall j :: lo <= j < hi ==> text[j] != 'i'
    ensures forall j :: lo <= j < hi ==> !MatchesAt(text, pat, j)
  {
    forall j | lo <= j < hi ensures !MatchesAt(text, pat, j) {
      if j + |pat| <= |text| {
        assert text[j..j + |pat|][0] == text[j];
      }
    }
  }

  /** When nothing before `pre`'s end matches, the first match is right after it. */
  lemma FirstMatchAfter(pre: string, pat: string, rest: string, rep: string)
    requires forall j :: 0 <= j < |pre| ==> !MatchesAt(pre + pat + rest, pat, j)
    ensures ReplaceFirst(pre + pat + rest, pat, rep) == pre + rep + rest
  {
    var text := pre + pat + rest;
    assert text[|pre|..|pre| + |pat|] == pat;
    assert text[..|pre|] == pre && text[|pre| + |pat|..] == rest;
    ReplaceFirstAtLeftmost(text, pat, rep, |pre|);
  }

  /** With `a`, `x` and `b` plain, the only position before the end of
      `a + IdPattern(x) + b` where an id pattern could start is `|a|`; if that
      one is not a match, none is. */
  lemma NoMatchAcross(a: string, x: string, b: string, tail: string, pat: string)
    requires Plain(a) && Plain(x) && Plain(b) && |pat| > 0 && pat[0] == 'i'
    requires !MatchesAt(a + IdPattern(x) + b + tail, pat, |a|)
    ensures forall j :: 0 <= j < |a + IdPattern(x) + b| ==> !MatchesAt(a + IdPattern(x) + b + tail, pat, j)
  {
    var p := IdPattern(x);
    var text := a + p + b + tail;
    IdPatternShape(x);
    forall j | 0 <= j < |a + p + b| && j != |a| ensures text[j] != 'i' {
      if j < |a| {
        assert text[j] == a[j];
      } else if j < |a| + |p| {
        assert text[j] == p[1..][j - |a| - 1];
      } else {
        assert text[j] == b[j - |a| - |p|];
      }
    }
    NoMatchScan(text, pat, 0, |a|);
    NoMatchScan(text, pat, |a| + 1, |a + p + b|);
  }

  /** An id pattern for a shorter id cannot match where a longer id's pattern
      starts, as long as the longer id has no '"' where the shorter one's
      closing quote falls. */
  lemma ShorterIdMismatch(a: string, x: string, rest: string, y: string)
    requires |y| < |x| && x[|y|] != '"'
    ensures !MatchesAt(a + IdPattern(x) + rest, IdPattern(y), |a|)
  {
    var text := a + IdPattern(x) + rest;
    IdPatternShape(x);
    IdPatternShape(y);
    assert text[|a| + 5 + |y|] == x[|y|];
  }

  /** The step is strictly increasing on the ids a stamp can start a chain from. */
  lemma IncrementDiffers(s: string)
    requires IsTenDigits(s) && Field(s, 8) <= 58
    ensures IsTenDigits(IncrementDateId(s)) && IncrementDateId(s) != s
    ensures Field(IncrementDateId(s), 8) == Field(s, 8) + 1
    ensures DigitsValue(IncrementDateId(s)) == DigitsValue(s) + 1
  {
    IncrementTenDigits(s);
  }

  /** Concatenation regrouped, so that the lemmas below can be applied to
      the pieces they name. */
  lemma Regroup5(a: string, p: string, b: string, q: string, c: string)
    ensures a + p + b + q + c == a + p + (b + q + c)
    ensures a + p + b + q + c == a + p + b + (q + c)
  {
  }

  lemma Regroup(a: string, p: string, b: string, q: string, c: string, r: string, d: string)
    ensures a + p + b + q + c + r + d == a + p + (b + q + (c + r + d))
    ensures a + p + b + q + (c + r + d) == a + p + (b + q + (c + r + d))
  {
  }

  // ---------------------------------------------------------------------------
  // Which id field a rewrite hits

  /** With no id field in the plain text before it, the first field holding
      `y` is the one rewritten. */
  lemma FirstFieldRewritten(a: string, y: string, rest: string, rep: string)
    requires Plain(a)
    ensures ReplaceFirst(a + IdPattern(y) + rest, IdPattern(y), rep) == a + rep + rest
  {
    IdPatternShape(y);
    NoMatchScan(a + IdPattern(y) + rest, IdPattern(y), 0, |a|);
    FirstMatchAfter(a, IdPattern(y), rest, rep);
  }

  /** Past a first field holding a longer plain id, the rewrite for a shorter
      id hits the second field. */
  lemma SecondFieldRewritten(a: string, x: string, b: string, y: string, rest: string, rep: string)
    requires Plain(a) && Plain(x) && Plain(b)
    requires |y| < |x| && x[|y|] != '"'
    ensures ReplaceFirst(a + IdPattern(x) + b + IdPattern(y) + rest, IdPattern(y), rep)
      == a + IdPattern(x) + b + rep + rest
  {
    NoFieldBefore(a, x, b, y, rest);
    FirstMatchAfter(a + IdPattern(x) + b, IdPattern(y), rest, rep);
  }

  lemma NoFieldBefore(a: string, x: string, b: string, y: string, rest: string)
    requires Plain(a) && Plain(x) && Plain(b)
    requires |y| < |x| && x[|y|] != '"'
    ensures var text := a + IdPattern(x) + b + IdPattern(y) + rest;
      forall j :: 0 <= j < |a + IdPattern(x) + b| ==> !MatchesAt(text, IdPattern(y), j)
  {
    var py := IdPattern(y);
    IdPatternShape(y);
    Regroup5(a, IdPattern(x), b, py, rest);
    ShorterIdMismatch(a, x, b + py + rest, y);
    NoMatchAcross(a, x, b, py + rest, py);
  }

  // ---------------------------------------------------------------------------
  // Unfolding a run one card at a time

  lemma RunTwo(doc: string, c0: Card, c1: Card, stamp: string)
    ensures Run(doc, [c0, c1], stamp)
      == Step(Step(PassState(doc, [c0, c1], ""), 0, stamp), 1, stamp)
  {
    assert RunUpTo(doc, [c0, c1], stamp, 1) == Step(PassState(doc, [c0, c1], ""), 0, stamp);
  }

  lemma RunThree(doc: string, c0: Card, c1: Card, c2: Card, stamp: string)
    ensures Run(doc, [c0, c1, c2], stamp)
      == Step(Step(Step(PassState(doc, [c0, c1, c2], ""), 0, stamp), 1, stamp), 2, stamp)
  {
    assert RunUpTo(doc, [c0, c1, c2], stamp, 1) == Step(PassState(doc, [c0, c1, c2], ""), 0, stamp);
    assert RunUpTo(doc, [c0, c1, c2], stamp, 2)
      == Step(RunUpTo(doc, [c0, c1, c2], stamp, 1), 1, stamp);
  }

  /** An eligible card whose conflict loop settles on `newId` and whose
      rewrite yields `text`. */
  lemma StepAssigns(st: PassState, i: nat, stamp: string, newId: string, text: string)
    requires i < |st.cards| && Eligible(st.cards[i])
    requires Resolve(Candidate(st.cards[i].id, st.prevId, stamp), st.cards, MaxTries) == newId
    requires ReplaceFirst(st.contents, IdPattern(st.cards[i].id), IdPattern(newId)) == text
    ensures Step(st, i, stamp) == PassState(text, st.cards[i := st.cards[i].(id := newId)], newId)
  {
  }

  lemma ResolveFree(c: string, cards: seq<Card>)
    requires !HeldBy(cards, c)
    ensures Resolve(c, cards, MaxTries) == c
  {
  }

  lemma ResolveOneStep(c: string, cards: seq<Card>)
    requires HeldBy(cards, c) && !HeldBy(cards, IncrementDateId(c))
    ensures Resolve(c, cards, MaxTries) == IncrementDateId(c)
  {
    assert Resolve(c, cards, MaxTries) == Resolve(IncrementDateId(c), cards, MaxTries - 1);
  }

  // ---------------------------------------------------------------------------
  // Two new cards in a row

  /** Two consecutive non-empty cards with empty ids, and nothing else: the
      first gets the stamp, the second would get the stamp too but the
      conflict loop moves it one minute on; each `id: ""` is replaced once. */
  lemma TwoNewCards(a: string, b: string, c: string, stamp: string)
    requires Plain(a) && Plain(b)
    requires IsTenDigits(stamp) && Field(stamp, 8) <= 58
    ensures var doc := a + IdPattern("") + b + IdPattern("") + c;
      var next := IncrementDateId(stamp);
      Run(doc, [Card("", false), Card("", false)], stamp)
        == PassState(a + IdPattern(stamp) + b + IdPattern(next) + c,
                     [Card(stamp, false), Card(next, false)],
                     next)
  {
    var p0 := IdPattern("");
    var doc := a + p0 + b + p0 + c;
    var rest := b + p0 + c;
    assert doc == a + p0 + rest;
    assert a + IdPattern(stamp) + rest == a + IdPattern(stamp) + b + p0 + c;
    RunTwo(doc, Card("", false), Card("", false), stamp);
    TwoNewCardsFirst(a, rest, stamp);
    TwoNewCardsSecond(a, b, c, stamp);
  }

  lemma TwoNewCardsFirst(a: string, rest: string, stamp: string)
    requires Plain(a) && |stamp| > 0
    ensures Step(PassState(a + IdPattern("") + rest, [Card("", false), Card("", false)], ""), 0, stamp)
      == PassState(a + IdPattern(stamp) + rest, [Card(stamp, false), Card("", false)], stamp)
  {
    var cards := [Card("", false), Card("", false)];
    assert cards[0].id != stamp && cards[1].id != stamp;
    ResolveFree(stamp, cards);
    FirstFieldRewritten(a, "", rest, IdPattern(stamp));
    StepAssigns(PassState(a + IdPattern("") + rest, cards, ""), 0, stamp, stamp, a + IdPattern(stamp) + rest);
  }

  lemma TwoNewCardsSecond(a: string, b: string, rest: string, stamp: string)
    requires Plain(a) && Plain(b)
    requires IsTenDigits(stamp) && Field(stamp, 8) <= 58
    ensures var next := IncrementDateId(stamp);
      Step(PassState(a + IdPattern(stamp) + b + IdPattern("") + rest,
                     [Card(stamp, false), Card("", false)], stamp), 1, stamp)
        == PassState(a + IdPattern(stamp) + b + IdPattern(next) + rest,
                     [Card(stamp, false), Card(next, false)], next)
  {
    var next := IncrementDateId(stamp);
    var cards := [Card(stamp, false), Card("", false)];
    NextMinuteIsFree(stamp, cards, false);
    DigitsArePlain(stamp);
    assert stamp[0] != '"';
    SecondFieldRewritten(a, stamp, b, "", rest, IdPattern(next));
    StepAssigns(PassState(a + IdPattern(stamp) + b + IdPattern("") + rest, cards, stamp), 1, stamp, next,
                a + IdPattern(stamp) + b + IdPattern(next) + rest);
  }

  /** The stamp is held by the first card only, and one minute on is free. */
  lemma NextMinuteIsFree(stamp: string, cards: seq<Card>, empty: bool)
    requires IsTenDigits(stamp) && Field(stamp, 8) <= 58
    requires cards == [Card(stamp, empty), Card("", false)]
    ensures Resolve(stamp, cards, MaxTries) == IncrementDateId(stamp)
  {
    IncrementDiffers(stamp);
    assert cards[0].id == stamp;
    ResolveOneStep(stamp, cards);
  }

  /** The same with two new cards of a deck, at 14:30 on 2025-06-01. */
  lemma TwoNewCardsExample(doc: string, cards: seq<Card>, stamp: string)
    requires doc == "#card(id: \"\", q: [A])\n#card(id: \"\", q: [B])"
    requires cards == [Card("", false), Card("", false)] && stamp == "2506011430"
    ensures Run(doc, cards, stamp).contents
      == "#card(id: \"2506011430\", q: [A])\n#card(id: \"2506011431\", q: [B])"
  {
    var a, b, c := "#card(", ", q: [A])\n#card(", ", q: [B])";
    ExampleDeckBefore();
    assert Plain(a) && Plain(b);
    TwoDigitsValue(stamp[8..10]);
    TwoNewCards(a, b, c, stamp);
    IncrementMinuteExample();
    ExampleDeckAfter();
  }

  lemma ExampleDeckBefore()
    ensures "#card(" + IdPattern("") + ", q: [A])\n#card(" + IdPattern("") + ", q: [B])"
      == "#card(id: \"\", q: [A])\n#card(id: \"\", q: [B])"
  {
  }

  lemma ExampleDeckAfter()
    ensures "#card(" + IdPattern("2506011430") + ", q: [A])\n#card(" + IdPattern("2506011431") + ", q: [B])"
      == "#card(id: \"2506011430\", q: [A])\n#card(id: \"2506011431\", q: [B])"
  {
    var a, b := "#card(", ", q: [A])\n#card(";
    assert IdPattern("2506011430") == "id: \"2506011430\"";
    assert IdPattern("2506011431") == "id: \"2506011431\"";
    assert a + IdPattern("2506011430") == "#card(id: \"2506011430\"";
    assert a + IdPattern("2506011430") + b == "#card(id: \"2506011430\", q: [A])\n#card(";
    assert a + IdPattern("2506011430") + b + IdPattern("2506011431")
      == "#card(id: \"2506011430\", q: [A])\n#card(id: \"2506011431\"";
  }

  // ---------------------------------------------------------------------------
  // An empty card in front

  /** An empty card with an empty id before a non-empty one with an empty
      id: the empty card is not numbered, but the rewrite for the second card
      hits the first `id: ""` of the text, which is the empty card's. */
  lemma EmptyCardInFront(a: string, b: string, c: string, stamp: string)
    requires Plain(a) && |stamp| > 0
    ensures var doc := a + IdPattern("") + b + IdPattern("") + c;
      Run(doc, [Card("", true), Card("", false)], stamp)
        == PassState(a + IdPattern(stamp) + b + IdPattern("") + c,
                     [Card("", true), Card(stamp, false)],
                     stamp)
  {
    var p0 := IdPattern("");
    var doc := a + p0 + b + p0 + c;
    var rest := b + p0 + c;
    assert doc == a + p0 + rest;
    assert a + IdPattern(stamp) + rest == a + IdPattern(stamp) + b + p0 + c;
    RunTwo(doc, Card("", true), Card("", false), stamp);
    var st0 := PassState(doc, [Card("", true), Card("", false)], "");
    assert Step(st0, 0, stamp) == st0;
    EmptyCardInFrontSecond(a, rest, stamp);
  }

  lemma EmptyCardInFrontSecond(a: string, rest: string, stamp: string)
    requires Plain(a) && |stamp| > 0
    ensures Step(PassState(a + IdPattern("") + rest, [Card("", true), Card("", false)], ""), 1, stamp)
      == PassState(a + IdPattern(stamp) + rest, [Card("", true), Card(stamp, false)], stamp)
  {
    var cards := [Card("", true), Card("", false)];
    assert cards[0].id != stamp && cards[1].id != stamp;
    ResolveFree(stamp, cards);
    FirstFieldRewritten(a, "", rest, IdPattern(stamp));
    StepAssigns(PassState(a + IdPattern("") + rest, cards, ""), 1, stamp, stamp, a + IdPattern(stamp) + rest);
  }

  /** The pass is not idempotent on its own output there: extracted afresh
      from the rewritten text, the first card (still empty) holds the stamp
      and the second card's id is empty again, so a second run at the same
      minute rewrites the remaining `id: ""` to the next minute. */
  lemma EmptyCardInFrontRerun(a: string, b: string, c: string, stamp: string)
    requires Plain(a) && Plain(b)
    requires IsTenDigits(stamp) && Field(stamp, 8) <= 58
    ensures var doc := a + IdPattern(stamp) + b + IdPattern("") + c;
      var next := IncrementDateId(stamp);
      && Run(doc, [Card(stamp, true), Card("", false)], stamp)
           == PassState(a + IdPattern(stamp) + b + IdPattern(next) + c,
                        [Card(stamp, true), Card(next, false)],
                        next)
      && Run(doc, [Card(stamp, true), Card("", false)], stamp).contents != doc
  {
    var doc := a + IdPattern(stamp) + b + IdPattern("") + c;
    var cards := [Card(stamp, true), Card("", false)];
    RunTwo(doc, cards[0], cards[1], stamp);
    var st0 := PassState(doc, cards, "");
    assert Step(st0, 0, stamp) == PassState(doc, cards, stamp);
    EmptyCardInFrontRerunSecond(a, b, c, stamp);
    IncrementDiffers(stamp);
    var next := IncrementDateId(stamp);
    assert |a + IdPattern(stamp) + b + IdPattern(next) + c| != |doc|;
  }

  lemma EmptyCardInFrontRerunSecond(a: string, b: string, rest: string, stamp: string)
    requires Plain(a) && Plain(b)
    requires IsTenDigits(stamp) && Field(stamp, 8) <= 58
    ensures var next := IncrementDateId(stamp);
      Step(PassState(a + IdPattern(stamp) + b + IdPattern("") + rest,
                     [Card(stamp, true), Card("", false)], stamp), 1, stamp)
        == PassState(a + IdPattern(stamp) + b + IdPattern(next) + rest,
                     [Card(stamp, true), Card(next, false)], next)
  {
    var next := IncrementDateId(stamp);
    var cards := [Card(stamp, true), Card("", false)];
    NextMinuteIsFree(stamp, cards, true);
    DigitsArePlain(stamp);
    assert stamp[0] != '"';
    SecondFieldRewritten(a, stamp, b, "", rest, IdPattern(next));
    StepAssigns(PassState(a + IdPattern(stamp) + b + IdPattern("") + rest, cards, stamp), 1, stamp, next,
                a + IdPattern(stamp) + b + IdPattern(next) + rest);
  }

  // ---------------------------------------------------------------------------
  // A conflict with a card further down

  /** A new card, a card with a `YYMMDD` placeholder, and a card that already
      holds the id one minute past the stamp. The placeholder's candidate
      continues from the first card and collides with the third card, so the
      conflict loop moves it one more minute; the third card is left alone. */
  lemma ConflictWithLaterCard(a: string, b: string, c: string, d: string, day: string, stamp: string)
    requires Plain(a) && Plain(b)
    requires IsSixDigits(day)
    requires IsTenDigits(stamp) && Field(stamp, 8) <= 57
    ensures var taken := IncrementDateId(stamp);
      var doc := a + IdPattern("") + b + IdPattern(day) + c + IdPattern(taken) + d;
      var moved := IncrementDateId(taken);
      Run(doc, [Card("", false), Card(day, false), Card(taken, false)], stamp)
        == PassState(a + IdPattern(stamp) + b + IdPattern(moved) + c + IdPattern(taken) + d,
                     [Card(stamp, false), Card(moved, false), Card(taken, false)],
                     taken)
  {
    var taken := IncrementDateId(stamp);
    var moved := IncrementDateId(taken);
    TwoMinutesOn(stamp);
    var doc := a + IdPattern("") + b + IdPattern(day) + c + IdPattern(taken) + d;
    var rest2 := c + IdPattern(taken) + d;
    var rest1 := b + IdPattern(day) + rest2;
    var text2 := a + IdPattern(stamp) + b + IdPattern(moved) + rest2;
    Regroup(a, IdPattern(""), b, IdPattern(day), c, IdPattern(taken), d);
    Regroup(a, IdPattern(stamp), b, IdPattern(day), c, IdPattern(taken), d);
    Regroup(a, IdPattern(stamp), b, IdPattern(moved), c, IdPattern(taken), d);
    RunThree(doc, Card("", false), Card(day, false), Card(taken, false), stamp);
    ConflictFirst(a, rest1, day, taken, stamp);
    ConflictSecondResolve(day, stamp);
    ConflictSecond(a, b, rest2, day, stamp, taken, moved);
    ConflictThird(text2, stamp, moved, taken);
  }

  /** Two steps from a stamp whose minute is at most 57 give two new
      ten-digit ids, distinct from each other and from the stamp. */
  lemma TwoMinutesOn(stamp: string)
    requires IsTenDigits(stamp) && Field(stamp, 8) <= 57
    ensures var taken := IncrementDateId(stamp);
      var moved := IncrementDateId(taken);
      && |taken| == 10 && |moved| == 10
      && taken != stamp && moved != stamp && moved != taken
  {
    var taken := IncrementDateId(stamp);
    IncrementDiffers(stamp);
    IncrementDiffers(taken);
    assert DigitsValue(IncrementDateId(taken)) == DigitsValue(stamp) + 2;
  }

  lemma ConflictFirst(a: string, rest: string, day: string, taken: string, stamp: string)
    requires Plain(a) && |day| == 6 && |stamp| == 10 && stamp != taken
    ensures Step(PassState(a + IdPattern("") + rest, [Card("", false), Card(day, false), Card(taken, false)], ""), 0, stamp)
      == PassState(a + IdPattern(stamp) + rest, [Card(stamp, false), Card(day, false), Card(taken, false)], stamp)
  {
    var cards := [Card("", false), Card(day, false), Card(taken, false)];
    assert cards[0].id != stamp && cards[1].id != stamp && cards[2].id != stamp;
    ResolveFree(stamp, cards);
    FirstFieldRewritten(a, "", rest, IdPattern(stamp));
    StepAssigns(PassState(a + IdPattern("") + rest, cards, ""), 0, stamp, stamp, a + IdPattern(stamp) + rest);
  }

  lemma ConflictSecond(a: string, b: string, rest: string, day: string, stamp: string, taken: string, moved: string)
    requires Plain(a) && Plain(b) && IsSixDigits(day) && IsTenDigits(stamp)
    requires Resolve(Candidate(day, stamp, stamp), [Card(stamp, false), Card(day, false), Card(taken, false)], MaxTries)
      == moved
    ensures Step(PassState(a + IdPattern(stamp) + b + IdPattern(day) + rest,
                           [Card(stamp, false), Card(day, false), Card(taken, false)], stamp), 1, stamp)
      == PassState(a + IdPattern(stamp) + b + IdPattern(moved) + rest,
                   [Card(stamp, false), Card(moved, false), Card(taken, false)], moved)
  {
    var cards := [Card(stamp, false), Card(day, false), Card(taken, false)];
    DigitsArePlain(stamp);
    assert stamp[6] != '"';
    SecondFieldRewritten(a, stamp, b, day, rest, IdPattern(moved));
    StepAssigns(PassState(a + IdPattern(stamp) + b + IdPattern(day) + rest, cards, stamp), 1, stamp, moved,
                a + IdPattern(stamp) + b + IdPattern(moved) + rest);
  }

  /** The placeholder's candidate is one minute past the stamp, which the
      third card holds, and the minute after that is free. */
  lemma ConflictSecondResolve(day: string, stamp: string)
    requires IsSixDigits(day) && IsTenDigits(stamp) && Field(stamp, 8) <= 57
    ensures var taken := IncrementDateId(stamp);
      Resolve(Candidate(day, stamp, stamp), [Card(stamp, false), Card(day, false), Card(taken, false)], MaxTries)
        == IncrementDateId(taken)
  {
    var taken := IncrementDateId(stamp);
    TwoMinutesOn(stamp);
    assert Candidate(day, stamp, stamp) == taken;
    ResolvePastHeld(day, stamp, taken);
  }

  lemma ResolvePastHeld(day: string, stamp: string, taken: string)
    requires |day| == 6 && |IncrementDateId(taken)| == 10
    requires IncrementDateId(taken) != stamp && IncrementDateId(taken) != taken
    ensures Resolve(taken, [Card(stamp, false), Card(day, false), Card(taken, false)], MaxTries)
      == IncrementDateId(taken)
  {
    var cards := [Card(stamp, false), Card(day, false), Card(taken, false)];
    var moved := IncrementDateId(taken);
    assert HeldBy(cards, taken) by { assert cards[2].id == taken; }
    NoneOfThree(stamp, day, taken, moved);
    ResolveOneStep(taken, cards);
  }

  lemma NoneOfThree(a: string, b: string, c: string, x: string)
    requires x != a && |x| != |b| && x != c
    ensures !HeldBy([Card(a, false), Card(b, false), Card(c, false)], x)
  {
    var cards := [Card(a, false), Card(b, false), Card(c, false)];
    assert cards[0].id == a && cards[1].id == b && cards[2].id == c;
  }

  /** A card that already holds a ten-digit id is passed over and only
      becomes the previous id. */
  lemma ConflictThird(text: string, stamp: string, moved: string, taken: string)
    requires |taken| == 10
    ensures var cards := [Card(stamp, false), Card(moved, false), Card(taken, false)];
      Step(PassState(text, cards, moved), 2, stamp) == PassState(text, cards, taken)
  {
    LongIdIsNotPlaceholder(taken);
  }
}
