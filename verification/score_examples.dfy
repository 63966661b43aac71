/**
 * Concrete feedback texts: the match that `feedback.match(...)` reports for each, and the
 * score the grade-answer handler then returns (server.js, lines 117-118). Each lemma takes
 * the text as a parameter fixed by its precondition and follows the scan one start
 * position at a time.
 */
module ScoreExamples {
  import opened Wrappers
  import opened ScoreExtraction
  import opened Upstream
  import opened Handlers

  /** "Score: 85/100": the group "85" after a space; the score is 85. */
  lemma PlainScore(s: string)
    requires s == "Score: 85/100"
    ensures Exec(s) == Some(Match(7, 2)) && ExtractScore(s) == 85
  {
    SearchSkipsNonDigits(s, 0, 7);
    MatchAtGroup(s, 7, 2, 10);
    SearchStops(s, 7, 2);
    assert s[7..9] == "85";
    ScoreAt(s, 7, 2, 85);
  }

  /** "100/100": three digits, a slash, then the literal; the score is 100. */
  lemma FullMarks(s: string)
    requires s == "100/100"
    ensures Exec(s) == Some(Match(0, 3)) && ExtractScore(s) == 100
  {
    MatchAtGroup(s, 0, 3, 4);
    SearchStops(s, 0, 3);
    assert s[0..3] == "100" && "100"[..2] == "10";
    assert DecimalValue("10") == 10;
    ScoreAt(s, 0, 3, 100);
  }

  /** "999/100": no clamp to 100; the score is 999. */
  lemma NoClamp(s: string)
    requires s == "999/100"
    ensures Exec(s) == Some(Match(0, 3)) && ExtractScore(s) == 999
  {
    MatchAtGroup(s, 0, 3, 4);
    SearchStops(s, 0, 3);
    assert s[0..3] == "999" && "999"[..2] == "99";
    assert DecimalValue("99") == 99;
    ScoreAt(s, 0, 3, 999);
  }

  /**
   * "a85/100", "_85/100", ...: a letter or underscore right before the digits leaves no word
   * boundary there, so nothing matches and the score is the default.
   */
  lemma WordCharBeforeDigits(c: char, s: string)
    requires IsWordChar(c) && !IsDigit(c) && s == [c] + "85/100"
    ensures Exec(s) == None && ExtractScore(s) == DefaultScore
  {
    NoMatchAtNonDigit(s, 0);
    SearchStep(s, 0);
    NoMatchInsideWord(s, 1);
    SearchStep(s, 1);
    NoMatchInsideWord(s, 2);
    SearchStep(s, 2);
    NoMatchAtNonDigit(s, 3);
    SearchStep(s, 3);
    NoMatchWithoutLaterHundred(s, 4);
    SearchStep(s, 4);
    NoMatchInsideWord(s, 5);
    SearchStep(s, 5);
    NoMatchInsideWord(s, 6);
    SearchStep(s, 6);
    SearchAtEnd(s);
  }

  /** "85 / 100": a run of several separators is allowed; the score is 85. */
  lemma SeparatorRun(s: string)
    requires s == "85 / 100"
    ensures Exec(s) == Some(Match(0, 2)) && ExtractScore(s) == 85
  {
    MatchAtGroup(s, 0, 2, 5);
    SearchStops(s, 0, 2);
    assert s[0..2] == "85";
    ScoreAt(s, 0, 2, 85);
  }

  /** "85/1000": nothing is required after the literal; the score is 85. */
  lemma TrailingDigit(s: string)
    requires s == "85/1000"
    ensures Exec(s) == Some(Match(0, 2)) && ExtractScore(s) == 85
  {
    MatchAtGroup(s, 0, 2, 3);
    SearchStops(s, 0, 2);
    assert s[0..2] == "85";
    ScoreAt(s, 0, 2, 85);
  }

  /** "Score: 100": the literal alone, with no digit group before it, is no score; default. */
  lemma HundredAlone(s: string)
    requires s == "Score: 100"
    ensures Exec(s) == None && ExtractScore(s) == DefaultScore
  {
    SearchSkipsNonDigits(s, 0, 7);
    NoMatchWithoutLaterHundred(s, 7);
    SearchStep(s, 7);
    NoMatchInsideWord(s, 8);
    SearchStep(s, 8);
    NoMatchInsideWord(s, 9);
    SearchStep(s, 9);
    SearchAtEnd(s);
  }

  /** "1100": three and two digits are given back; one digit reaches "100"; the score is 1. */
  lemma Backtracking(s: string)
    requires s == "1100"
    ensures Exec(s) == Some(Match(0, 1)) && ExtractScore(s) == 1
  {
    MatchAtGroup(s, 0, 1, 1);
    SearchStops(s, 0, 1);
    assert s[0..1] == "1";
    ScoreAt(s, 0, 1, 1);
  }

  /** "Score out of 100: 42": a number after the literal is never a score; default. */
  lemma ScoreAfterHundred(s: string)
    requires s == "Score out of 100: 42"
    ensures Exec(s) == None && ExtractScore(s) == DefaultScore
  {
    SearchSkipsNonDigits(s, 0, 13);
    ScoreAfterHundredFrom13(s);
  }

  /** The scan over "Score out of 100: 42" from the literal on finds nothing. */
  lemma ScoreAfterHundredFrom13(s: string)
    requires s == "Score out of 100: 42"
    ensures Search(s, 13) == None
  {
    NoMatchWithoutLaterHundred(s, 13);
    SearchStep(s, 13);
    NoMatchInsideWord(s, 14);
    SearchStep(s, 14);
    NoMatchInsideWord(s, 15);
    SearchStep(s, 15);
    ScoreAfterHundredFrom16(s);
  }

  /** The scan over "Score out of 100: 42" after the literal finds nothing. */
  lemma ScoreAfterHundredFrom16(s: string)
    requires s == "Score out of 100: 42"
    ensures Search(s, 16) == None
  {
    SearchSkipsNonDigits(s, 16, 18);
    NoMatchWithoutLaterHundred(s, 18);
    SearchStep(s, 18);
    NoMatchInsideWord(s, 19);
    SearchStep(s, 19);
    SearchAtEnd(s);
  }

  /** Feedback without any digit gets the default score. */
  lemma NoDigits(s: string)
    requires s == "Great answer, well explained"
    ensures Exec(s) == None && ExtractScore(s) == DefaultScore
  {
    SearchSkipsNonDigits(s, 0, |s|);
    SearchAtEnd(s);
  }

  /** Empty feedback gets the default score. */
  lemma EmptyFeedback()
    ensures Exec("") == None && ExtractScore("") == DefaultScore
  {
    SearchAtEnd("");
  }

  /**
   * Multi-line feedback as the grading prompt asks for it: the score line decides, and the
   * text after it does not matter; the score is 78.
   */
  lemma MultiLine(line: string, rest: string)
    requires line == "Score: 78/100"
    ensures ExtractScore(line + rest) == 78
  {
    SearchSkipsNonDigits(line, 0, 7);
    MatchAtGroup(line, 7, 2, 10);
    SearchStops(line, 7, 2);
    assert line[7..9] == "78";
    ScoreAt(line, 7, 2, 78);
    ExecFindsFirstMatch(line);
    ScoreIgnoresAppendedText(line, rest);
  }

  /** Grading a REST answer whose feedback begins "Score: 78/100" returns score 78 and the feedback verbatim. */
  lemma GradeAnswerScenario()
    ensures var feedback := "Score: 78/100" + "\nFeedback: solid understanding";
      GradeAnswer(Some("backend"), Some("Explain REST"), Some("REST is..."),
                  Resolved(Some(SingleTextReply(feedback)))).response
      == Response(200, [("score", JNumber(78)), ("feedback", JString(feedback))])
  {
    var feedback := "Score: 78/100" + "\nFeedback: solid understanding";
    ReplyTextOfSingleTextReply(feedback);
    MultiLine("Score: 78/100", "\nFeedback: solid understanding");
  }
}
