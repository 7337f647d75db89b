/** The check-run text builder. Lengths count bytes, so texts are byte sequences. */
module Check {

  type Byte = b: int | 0 <= b < 256

  const MAX_LENGTH := 65536

  /** "\n\n", the warning sign U+26A0 with the variation selector U+FE0F, " _Summary has been truncated_". */
  const TRUNCATION_MESSAGE: seq<Byte> :=
    [10, 10, 226, 154, 160, 239, 184, 143, 32, 95, 83, 117, 109, 109, 97, 114, 121, 32, 104, 97, 115, 32, 98, 101,
     101, 110, 32, 116, 114, 117, 110, 99, 97, 116, 101, 100, 95]

  const NEWLINE: Byte := 10

  /** What a text is cut to when it is written in one piece. */
  function Clip(text: seq<Byte>): (r: seq<Byte>)
    ensures |r| <= MAX_LENGTH
    ensures |text| <= MAX_LENGTH <==> r == text
  {
    if |text| <= MAX_LENGTH then text
    else text[..MAX_LENGTH - |TRUNCATION_MESSAGE|] + TRUNCATION_MESSAGE
  }

  /** Cutting the cut text with more behind it gives the cut of the whole: the message written over the
      end is itself cut off again. */
  lemma ClipAbsorbs(text: seq<Byte>, more: seq<Byte>)
    ensures Clip(Clip(text) + more) == Clip(text + more)
  {
    var keep := MAX_LENGTH - |TRUNCATION_MESSAGE|;
    if |text| > MAX_LENGTH {
      assert (Clip(text) + more)[..keep] == text[..keep] == (text + more)[..keep];
    }
  }

  class Builder {
    var md: seq<Byte>
    /** Everything written so far, had nothing been cut. */
    ghost var written: seq<Byte>

    /** The text is everything written if that fits, and otherwise its head with the message behind it. */
    ghost predicate Valid()
      reads this
    {
      if |written| <= MAX_LENGTH then md == written
      else md == written[..MAX_LENGTH - |TRUNCATION_MESSAGE|] + TRUNCATION_MESSAGE
    }

    constructor ()
      ensures Valid() && written == []
    {
      md, written := [], [];
    }

    /** `text` is the formatted string. */
    method Writef(text: seq<Byte>)
      requires Valid()
      modifies this
      ensures Valid() && written == old(written) + text + [NEWLINE]
    {
      if |md| <= MAX_LENGTH {
        md := md + text;
        md := md + [NEWLINE];
      }
      written := written + text + [NEWLINE];
      ghost var before := old(written);
      assert old(md) + text + [NEWLINE] == old(md) + (text + [NEWLINE]);
      assert written == before + (text + [NEWLINE]);
      ClipAbsorbs(before, text + [NEWLINE]);
      if |md| > MAX_LENGTH {
        var out := md;
        out := out[..MAX_LENGTH - |TRUNCATION_MESSAGE|];
        out := out + TRUNCATION_MESSAGE;
        md := out;
      }
    }
  }

  // The same over a whole sequence of calls

  /** One call's effect on the text. */
  function AfterWritef(md: seq<Byte>, text: seq<Byte>): seq<Byte> {
    Clip(md + text + [NEWLINE])
  }

  function AfterAll(md: seq<Byte>, texts: seq<seq<Byte>>): seq<Byte> {
    if texts == [] then md else AfterWritef(AfterAll(md, texts[..|texts| - 1]), texts[|texts| - 1])
  }

  /** The texts of all calls, each with its newline. */
  function Concat(texts: seq<seq<Byte>>): seq<Byte> {
    if texts == [] then [] else Concat(texts[..|texts| - 1]) + texts[|texts| - 1] + [NEWLINE]
  }

  /** After any calls the text is the whole if that fits, and otherwise its first bytes with the message
      behind them, together of the maximal length. */
  lemma TextIsCutOnce(texts: seq<seq<Byte>>)
    ensures |Concat(texts)| <= MAX_LENGTH ==> AfterAll([], texts) == Concat(texts)
    ensures |Concat(texts)| > MAX_LENGTH ==>
              && AfterAll([], texts) == Concat(texts)[..MAX_LENGTH - |TRUNCATION_MESSAGE|] + TRUNCATION_MESSAGE
              && |AfterAll([], texts)| == MAX_LENGTH
  {
    IncrementalEqualsOneShot(texts);
  }

  /** Truncating after every call equals truncating the whole text once. */
  lemma {:induction false} IncrementalEqualsOneShot(texts: seq<seq<Byte>>)
    ensures AfterAll([], texts) == Clip(Concat(texts))
  {
    if texts != [] {
      var rest, last := texts[..|texts| - 1], texts[|texts| - 1];
      IncrementalEqualsOneShot(rest);
      var whole := Concat(rest);
      assert Clip(whole) + last + [NEWLINE] == Clip(whole) + (last + [NEWLINE]);
      assert whole + last + [NEWLINE] == whole + (last + [NEWLINE]);
      ClipAbsorbs(whole, last + [NEWLINE]);
    }
  }

  /** Once cut, the text never changes again. */
  lemma TruncatedIsFinal(texts: seq<seq<Byte>>, text: seq<Byte>)
    requires |Concat(texts)| > MAX_LENGTH
    ensures AfterAll([], texts + [text]) == AfterAll([], texts)
    ensures |AfterAll([], texts)| == MAX_LENGTH
  {
    IncrementalEqualsOneShot(texts);
    IncrementalEqualsOneShot(texts + [text]);
    assert (texts + [text])[..|texts + [text]| - 1] == texts;
    var whole := Concat(texts);
    var keep := MAX_LENGTH - |TRUNCATION_MESSAGE|;
    assert (whole + text + [NEWLINE])[..keep] == whole[..keep];
  }
}
