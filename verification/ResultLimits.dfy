/**
 Where the bounding stops being neutral: what it leaves alone, and inputs on which it does less, or more, than its
 notes say.
 */
module ResultLimits {
  import opened Options
  import opened Bytes
  import opened Utf8
  import opened TextTruncation
  import opened ResultWarning
  import opened Json
  import opened ResultBounds

  /** A result within the limits whose stderr is within its cap is sent as it is, with nothing to log. */
  lemma FittingIsUntouched(r: CommandResult)
    requires Fits(r) && |r.stderr| <= MAX_RESULT_TEXT
    ensures Fit(r) == Fitted(r, [], NoLimit)
  {
    assert Candidate1(r) == r;
    assert Join([], SEPARATOR) == [];
  }

  // ---------------------------------------------------------------- clipping stderr can itself exceed a limit

  lemma {:induction false} EscapedOnes(s: Text)
    requires forall i :: 0 <= i < |s| ==> s[i] == 1
    ensures |Escaped(s)| == 6 * |s|
  {
    if s != [] {
      assert FirstChar(s) == 1 && s[..1] == [1];
      EscapedOnes(s[1..]);
    }
  }

  lemma {:induction false} EscapedLetters(s: Text)
    requires forall i :: 0 <= i < |s| ==> s[i] == 97
    ensures |Escaped(s)| == |s|
  {
    if s != [] {
      assert FirstChar(s) == 1 && s[..1] == [97];
      EscapedLetters(s[1..]);
    }
  }

  /** Control bytes on stdout, letters on stderr: just within the frame budget. */
  function Borderline(): CommandResult {
    CommandResult([], true, Stdout(seq(2_783_902, _ => 1), None), seq(8193, _ => 97), 0)
  }

  /** The exact size of a marshalled result. */
  lemma FrameSize(r: CommandResult)
    ensures |Marshalled(r)| ==
            |Escaped(r.commandId)| + |Escaped(r.stdout.text)| + |Escaped(r.stderr)| + |Printed(r.durationMs as int)|
            + (if r.success then 69 else 70)
  {
  }

  lemma BorderlineLength(r: CommandResult)
    requires r.commandId == [] && r.success && r.durationMs == 0
    ensures |Marshalled(r)| == 70 + |Escaped(r.stdout.text)| + |Escaped(r.stderr)|
  {
    FrameSize(r);
    assert Printed(0) == Decimal(0);
  }

  lemma BorderlineFits()
    ensures Fits(Borderline())
  {
    var r := Borderline();
    EscapedOnes(r.stdout.text);
    EscapedLetters(r.stderr);
    BorderlineLength(r);
  }

  lemma TruncatedRunLength(s: Text)
    requires |s| == 8193 && forall i :: 0 <= i < |s| ==> s[i] == 97
    ensures |Truncated(s, MAX_RESULT_TEXT)| == 8192 + 24
  {
    assert Cut(s, 8192) == 8192;
    assert |Suffix(1)| == 24;
  }

  lemma BorderlineOverflows()
    ensures !Fits(Candidate1(Borderline()))
  {
    var r, c := Borderline(), Candidate1(Borderline());
    EscapedOnes(r.stdout.text);
    TruncatedRunLength(r.stderr);
    EscapedLength(c.stderr);
    BorderlineLength(c);
    CheapTestIsSound(c);
  }

  /** This result fits and reports a success. Its stderr is one byte over its cap; the mark that replaces that byte
      is longer than it, the clipped result no longer fits, and so a failure is sent, which names no limit. */
  lemma ClippingCanOverflow()
    ensures var r := Borderline();
            && Fits(r) && r.success && !Sent(r).success
            && Sent(r).stderr == OversizeText(|r.stdout.text| + |Candidate1(r).stderr|, NoLimit)
  {
    BorderlineFits();
    BorderlineOverflows();
  }

  /** Exactly when a result that fits is still sent with all of its output: when what the mark adds to the encoded
      stderr is still within the frame budget. */
  lemma FittingStaysWholeIff(r: CommandResult)
    requires Fits(r)
    ensures TierOf(r) == 1 <==>
            |Marshalled(r)| - |Escaped(r.stderr)| + |Escaped(Truncated(r.stderr, MAX_RESULT_TEXT))| <= PAYLOAD_BUDGET
  {
    CheapTestIsSound(r);
    CheapTestIsSound(Candidate1(r));
    SameFrame(r, Candidate1(r).stderr);
  }

  lemma SameFrame(r: CommandResult, stderr: Text)
    ensures |Marshalled(r.(stderr := stderr))| - |Escaped(stderr)| == |Marshalled(r)| - |Escaped(r.stderr)|
  {
  }
}
