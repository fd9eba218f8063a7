/**
 * The small decisions `CursorRegistration` makes on text it reads: whether
 * a typed verification code is accepted, whether an answer to the
 * suggested address means "yes", and the usage figure scraped from the
 * settings page.
 */
module Rules {
  import opened Common
  import opened Text

  /**
   * `get_verification_code` on the line typed: the stripped line when it is
   * exactly six digits, None otherwise.
   */
  function VerificationCode(line: string): (r: Option<string>) {
    var code := Strip(line);
    if AllDigits(code) && |code| == 6 then Some(code) else None
  }

  /**
   * An accepted code is six ASCII digits with no blank anywhere, and it
   * is what the operator typed, up to surrounding blanks.
   */
  lemma AcceptedCode(line: string)
    ensures VerificationCode(line).Some? ==>
              var code := VerificationCode(line).value;
              && code == Strip(line)
              && |code| == 6 && AllDigits(code)
              && forall k :: 0 <= k < 6 ==> !IsSpace(code[k]) && code[k] in line
    ensures VerificationCode(line).None? <==> !(|Strip(line)| == 6 && AllDigits(Strip(line)))
  {
    StripWithin(line);
  }

  /**
   * An accepted code sits in the typed line at the end of its leading
   * blanks, and only blanks follow it.
   */
  lemma AcceptedCodeInLine(line: string)
    requires VerificationCode(line).Some?
    ensures var i := |line| - |TrimLeft(line)|;
            && i + 6 <= |line| && line[i..i + 6] == VerificationCode(line).value
            && (forall k :: 0 <= k < i ==> IsSpace(line[k]))
            && (forall k :: i + 6 <= k < |line| ==> IsSpace(line[k]))
  {
    var l := TrimLeft(line);
    var i := |line| - |l|;
    TrimLeftSuffix(line);
    TrimLeftDropsSpaces(line);
    TrimRightPrefix(l);
    TrimRightDropsSpaces(l);
    assert |TrimRight(l)| == 6;
    assert line[i..i + 6] == l[..6];
    forall k | i + 6 <= k < |line|
      ensures IsSpace(line[k])
    {
      assert line[k] == l[k - i];
    }
  }

  /** Six digits typed with any blank padding around them are accepted as they are. */
  lemma PaddedCodeAccepted(before: string, code: string, after: string)
    requires forall k :: 0 <= k < |before| ==> IsSpace(before[k])
    requires forall k :: 0 <= k < |after| ==> IsSpace(after[k])
    requires |code| == 6 && AllDigits(code)
    ensures VerificationCode(before + code + after) == Some(code)
  {
    StripPadded(before, code, after);
  }

  /** A line with a non-digit inside the six characters is refused. */
  lemma NonDigitRefused(line: string, k: nat)
    requires k < |Strip(line)| && !IsDigit(Strip(line)[k])
    ensures VerificationCode(line) == None
  {
  }

  /** "12a456" is refused; "123456" is accepted. */
  lemma ExampleCodes(bad: string, good: string)
    requires bad == "12a456" && good == "123456"
    ensures VerificationCode(bad) == None
    ensures VerificationCode(good) == Some(good)
  {
    assert bad[0] == '1' && bad[5] == '6' && bad[2] == 'a';
    StripUnchanged(bad);
    assert good[0] == '1' && good[5] == '6';
    StripUnchanged(good);
  }

  /** `user_input.lower() == 'yes' or user_input.lower() == 'y'`. */
  predicate IsYes(answer: string) {
    Lower(answer) == "yes" || Lower(answer) == "y"
  }

  /**
   * The answers that take the suggested address: "y" and "yes" in any mix
   * of upper and lower case, and nothing else.
   */
  lemma YesAnswers(answer: string)
    ensures IsYes(answer) <==>
              || (|answer| == 1 && answer[0] in "yY")
              || (|answer| == 3 && answer[0] in "yY" && answer[1] in "eE" && answer[2] in "sS")
  {
    var l := Lower(answer);
    if |answer| == 1 {
      assert l == "y" <==> LowerChar(answer[0]) == 'y' by {
        assert l[0] == LowerChar(answer[0]) && "y"[0] == 'y';
        if LowerChar(answer[0]) == 'y' {
          assert l == "y";
        }
      }
    } else if |answer| == 3 {
      assert l == "yes" <==> LowerChar(answer[0]) == 'y' && LowerChar(answer[1]) == 'e' && LowerChar(answer[2]) == 's' by {
        assert l[0] == LowerChar(answer[0]) && l[1] == LowerChar(answer[1]) && l[2] == LowerChar(answer[2]);
        assert "yes"[0] == 'y' && "yes"[1] == 'e' && "yes"[2] == 's';
        if LowerChar(answer[0]) == 'y' && LowerChar(answer[1]) == 'e' && LowerChar(answer[2]) == 's' {
          assert l == "yes";
        }
      }
    } else {
      assert |l| != 1 && |l| != 3;
    }
  }

  const UnknownUsage := "未知"

  /**
   * The usage figure of `_get_account_info`: the text after the last '/'
   * of the usage element, stripped, or "未知" when there is no element.
   */
  function UsageQuota(element: Option<string>): (r: string) {
    match element
    case None => UnknownUsage
    case Some(text) => LastFigure(text)
  }

  /** The text after the last '/', stripped. */
  function LastFigure(text: string): (r: string) {
    var pieces := Split(text, '/');
    Strip(pieces[|pieces| - 1])
  }

  /**
   * The figure is what follows the last '/', stripped; it never holds a
   * '/' itself, and text without '/' is taken whole.
   */
  lemma UsageAfterLastSlash(head: string, tail: string)
    requires '/' !in tail
    ensures UsageQuota(Some(head + "/" + tail)) == Strip(tail)
    ensures UsageQuota(Some(tail)) == Strip(tail)
  {
    LastPiece(head, tail, '/');
    SplitWithoutSep(tail, '/');
  }

  /** Whatever the page shows, the figure holds no '/'. */
  lemma UsageHasNoSlash(element: Option<string>)
    ensures '/' !in UsageQuota(element)
  {
    if element.Some? {
      LastFigureHasNoSlash(element.value);
    }
  }

  /** No piece of a split on '/' holds a '/', and stripping only removes characters. */
  lemma LastFigureHasNoSlash(text: string)
    ensures '/' !in LastFigure(text)
  {
    var pieces := Split(text, '/');
    var last := pieces[|pieces| - 1];
    assert '/' !in last by { SplitPiecesFree(text, '/'); }
    StripWithin(last);
  }
}
