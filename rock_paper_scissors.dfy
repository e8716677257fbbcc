/**
 * The rock-paper-scissors tool: `rps` picks one of the three hands, and `judge` decides
 * the user's outcome after stripping both hands of surrounding whitespace. The random
 * choice is an input index; the game loop, its console I/O and the model calls are not
 * part of this model.
 */
module RockPaperScissors {

  const Scissors: string := "가위"
  const Rock: string := "바위"
  const Paper: string := "보"

  /** The list `rps` chooses from, in its order. */
  const Hands: seq<string> := [Scissors, Rock, Paper]

  const Draw: string := "무승부"
  const Win: string := "승리"
  const Lose: string := "패배"

  // ------------------------------------------------------------------
  // Python's str.strip()
  // ------------------------------------------------------------------

  /** The characters for which Python's `str.isspace` holds. */
  predicate IsSpace(c: char) {
    || ('\t' <= c <= '\r')
    || (0x1C <= c as int <= 0x20)
    || c as int == 0x85 || c as int == 0xA0 || c as int == 0x1680
    || (0x2000 <= c as int <= 0x200A)
    || c as int == 0x2028 || c as int == 0x2029 || c as int == 0x202F
    || c as int == 0x205F || c as int == 0x3000
  }

  predicate AllSpace(s: string) {
    forall k :: 0 <= k < |s| ==> IsSpace(s[k])
  }

  /** `s` without its leading whitespace. */
  function StripStart(s: string): (r: string)
    ensures |r| <= |s|
    decreases |s|
  {
    if s != [] && IsSpace(s[0]) then StripStart(s[1..]) else s
  }

  /** `s` without its trailing whitespace. */
  function StripEnd(s: string): (r: string)
    ensures |r| <= |s|
    decreases |s|
  {
    if s != [] && IsSpace(s[|s| - 1]) then StripEnd(s[..|s| - 1]) else s
  }

  /** What `StripStart` drops is whitespace, and what it keeps does not start with whitespace. */
  lemma {:induction false} StripStartSpec(s: string)
    ensures var r := StripStart(s);
      && r == s[|s| - |r|..]
      && AllSpace(s[..|s| - |r|])
      && (r != [] ==> !IsSpace(r[0]))
    decreases |s|
  {
    if s != [] && IsSpace(s[0]) {
      StripStartSpec(s[1..]);
      var r := StripStart(s);
      assert s[1..][|s| - 1 - |r|..] == s[|s| - |r|..];
    }
  }

  /** What `StripEnd` drops is whitespace, and what it keeps does not end with whitespace. */
  lemma {:induction false} StripEndSpec(s: string)
    ensures var r := StripEnd(s);
      && r == s[..|r|]
      && AllSpace(s[|r|..])
      && (r != [] ==> !IsSpace(r[|r| - 1]))
    decreases |s|
  {
    if s != [] && IsSpace(s[|s| - 1]) {
      var init := s[..|s| - 1];
      StripEndSpec(init);
      var r := StripEnd(s);
      assert init[..|r|] == s[..|r|];
      assert forall k :: |r| <= k < |s| ==> s[k] == if k == |s| - 1 then s[|s| - 1] else init[|r|..][k - |r|];
    }
  }

  /**
   * `s.strip()`: the part of `s` between its leading and its trailing whitespace, which
   * neither starts nor ends with whitespace.
   */
  function Strip(s: string): (r: string)
    ensures |r| <= |s|
    ensures r != [] ==> !IsSpace(r[0]) && !IsSpace(r[|r| - 1])
  {
    var t := StripStart(s);
    StripStartSpec(s);
    StripEndSpec(t);
    var r := StripEnd(t);
    assert r != [] ==> r[0] == t[0];
    r
  }

  /** `s` is whitespace, then `r` starting at index `i`, then whitespace. */
  ghost predicate Framed(s: string, i: nat, r: string) {
    && i + |r| <= |s|
    && s[i..i + |r|] == r
    && AllSpace(s[..i])
    && AllSpace(s[i + |r|..])
  }

  /** What stripping removes is whitespace on both sides. */
  lemma StripFramed(s: string)
    ensures Framed(s, |s| - |StripStart(s)|, Strip(s))
  {
    var t := StripStart(s);
    var r := StripEnd(t);
    var i := |s| - |t|;
    assert t == s[i..] && AllSpace(s[..i]) by {
      StripStartSpec(s);
    }
    assert r == t[..|r|] && AllSpace(t[|r|..]) by {
      StripEndSpec(t);
    }
    assert s[i..i + |r|] == t[..|r|];
    assert s[i + |r|..] == t[|r|..];
    assert Framed(s, i, r);
    assert Strip(s) == r;
  }

  /** Stripping twice is stripping once. */
  lemma StripIdempotent(s: string)
    ensures Strip(Strip(s)) == Strip(s)
  {
    var r := Strip(s);
    NothingToStrip(r);
  }

  /** A string that neither starts nor ends with whitespace is left as it is. */
  lemma NothingToStrip(s: string)
    requires s != [] ==> !IsSpace(s[0]) && !IsSpace(s[|s| - 1])
    ensures Strip(s) == s
  {
  }

  /** Whitespace around a string is what stripping removes. */
  lemma StripPadded(lead: string, s: string, trail: string)
    requires AllSpace(lead) && AllSpace(trail)
    requires s != [] ==> !IsSpace(s[0]) && !IsSpace(s[|s| - 1])
    ensures Strip(lead + s + trail) == s
  {
    var t := lead + s + trail;
    assert t == lead + (s + trail);
    if s == [] {
      AllSpaceConcat(lead, trail);
      assert t == lead + trail;
      AllSpaceStrips(t);
    } else {
      StripStartPast(lead, s + trail);
      StripEndPast(s, trail);
    }
  }

  /** A string of whitespace strips to nothing. */
  lemma AllSpaceStrips(s: string)
    requires AllSpace(s)
    ensures StripStart(s) == []
  {
    var r := StripStart(s);
    StripStartSpec(s);
  }

  lemma {:induction false} StripStartPast(lead: string, rest: string)
    requires AllSpace(lead)
    requires rest != [] ==> !IsSpace(rest[0])
    ensures StripStart(lead + rest) == rest
    decreases |lead|
  {
    if lead != [] {
      assert (lead + rest)[1..] == lead[1..] + rest;
      StripStartPast(lead[1..], rest);
    } else {
      assert lead + rest == rest;
    }
  }

  lemma {:induction false} StripEndPast(s: string, trail: string)
    requires AllSpace(trail)
    requires s != [] ==> !IsSpace(s[|s| - 1])
    ensures StripEnd(s + trail) == s
    decreases |trail|
  {
    if trail != [] {
      var t := s + trail;
      assert t[..|t| - 1] == s + trail[..|trail| - 1];
      StripEndPast(s, trail[..|trail| - 1]);
    } else {
      assert s + trail == s;
    }
  }

  // ------------------------------------------------------------------
  // The game
  // ------------------------------------------------------------------

  /** `rps`: `random.choice` over the three hands; `k` is the index the choice draws. */
  function Rps(k: nat): (hand: string)
    requires k < |Hands|
    ensures hand in Hands
    ensures hand == Scissors || hand == Rock || hand == Paper
  {
    Hands[k]
  }

  /** `judge(user_choice, computer_choice)`: the user's outcome. */
  function Judge(userChoice: string, computerChoice: string): (outcome: string)
    ensures outcome == Draw || outcome == Win || outcome == Lose
    ensures outcome == Draw <==> Strip(userChoice) == Strip(computerChoice)
  {
    var u := Strip(userChoice);
    var c := Strip(computerChoice);
    if u == c then Draw
    else if (u, c) in [(Scissors, Paper), (Rock, Scissors), (Paper, Rock)] then Win
    else Lose
  }

  /** Each hand is its own stripped form. */
  lemma HandsStripped()
    ensures forall k :: 0 <= k < |Hands| ==> Strip(Hands[k]) == Hands[k]
  {
    NothingToStrip(Scissors);
    NothingToStrip(Rock);
    NothingToStrip(Paper);
  }

  /**
   * The rules, stated as the cycle of the three hands: with hands numbered as `rps`
   * lists them, the user wins when their hand is one step ahead of the computer's
   * (rock after scissors, paper after rock, scissors after paper), draws on the same hand
   * and loses otherwise.
   */
  lemma JudgeCycle(i: nat, j: nat)
    requires i < 3 && j < 3
    ensures Judge(Rps(i), Rps(j)) == Draw <==> i == j
    ensures Judge(Rps(i), Rps(j)) == Win <==> (i - j) % 3 == 1
    ensures Judge(Rps(i), Rps(j)) == Lose <==> (i - j) % 3 == 2
  {
    HandsStripped();
  }

  /** Between two different valid hands, the user wins exactly when the roles reversed would lose. */
  lemma JudgeAntisymmetric(a: string, b: string)
    requires a in Hands && b in Hands && a != b
    ensures Judge(a, b) == Win <==> Judge(b, a) == Lose
    ensures Judge(a, b) != Draw
  {
    HandsStripped();
  }

  /** The winning pairs are exactly (가위, 보), (바위, 가위) and (보, 바위), after stripping. */
  lemma JudgeWinIff(userChoice: string, computerChoice: string)
    ensures Judge(userChoice, computerChoice) == Win <==>
      || (Strip(userChoice) == Scissors && Strip(computerChoice) == Paper)
      || (Strip(userChoice) == Rock && Strip(computerChoice) == Scissors)
      || (Strip(userChoice) == Paper && Strip(computerChoice) == Rock)
  {
  }

  /**
   * Input that is no hand at all loses against whatever the computer chose, unless it
   * strips to the very same text.
   */
  lemma UnrecognisedLoses(userChoice: string, k: nat)
    requires k < |Hands|
    requires Strip(userChoice) !in Hands
    ensures Judge(userChoice, Rps(k)) == Lose
  {
    HandsStripped();
  }

  /** Whitespace around either hand does not change the outcome. */
  lemma JudgeIgnoresPadding(lead: string, userChoice: string, trail: string, computerChoice: string)
    requires AllSpace(lead) && AllSpace(trail)
    ensures Judge(lead + userChoice + trail, computerChoice) == Judge(userChoice, computerChoice)
  {
    StripIgnoresPadding(lead, userChoice, trail);
  }

  /** Added whitespace on either side strips away with the whitespace already there. */
  lemma StripIgnoresPadding(lead: string, s: string, trail: string)
    requires AllSpace(lead) && AllSpace(trail)
    ensures Strip(lead + s + trail) == Strip(s)
  {
    var r := Strip(s);
    var i := |s| - |StripStart(s)|;
    assert Framed(s, i, r) by {
      StripFramed(s);
    }
    var before, after := s[..i], s[i + |r|..];
    assert s == before + r + after;
    var lead', trail' := lead + before, after + trail;
    assert AllSpace(lead') by {
      AllSpaceConcat(lead, before);
    }
    assert AllSpace(trail') by {
      AllSpaceConcat(after, trail);
    }
    assert lead + s + trail == lead' + r + trail' by {
      Regroup(lead, before, r, after, trail);
    }
    StripPadded(lead', r, trail');
  }

  lemma Regroup(a: string, b: string, c: string, d: string, e: string)
    ensures a + (b + c + d) + e == (a + b) + c + (d + e)
  {
  }

  lemma AllSpaceConcat(a: string, b: string)
    requires AllSpace(a) && AllSpace(b)
    ensures AllSpace(a + b)
  {
    assert forall k :: 0 <= k < |a + b| ==> (a + b)[k] == if k < |a| then a[k] else b[k - |a|];
  }

  lemma JudgeExamples()
    ensures Judge(" 가위\n", "보") == Win
    ensures Judge("보", "가위") == Lose
    ensures Judge("바위", "바위 ") == Draw
    ensures Judge("q", "바위") == Lose
  {
    assert IsSpace(' ') && IsSpace('\n');
    StripPadded(" ", Scissors, "\n");
    assert " 가위\n" == " " + Scissors + "\n";
    NothingToStrip("q");
    HandsStripped();
    StripPadded("", Rock, " ");
    assert "바위 " == "" + Rock + " ";
  }
}
