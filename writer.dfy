/**
 * The text buffers both generators write into (`IndentedStringBuilder` and
 * `IndentedTextWriter`): a list of lines, each remembered with the indentation
 * depth that was current when it was appended. Turning the list into one
 * string (indent width, line terminators) is not part of this model.
 */
module Writer {

  /** One appended line: the indentation depth it was written at, and its text. */
  datatype Line = Line(depth: nat, text: string)

  /** The given texts, in order, all written at one depth. */
  function AtDepth(depth: nat, texts: seq<string>): (lines: seq<Line>)
    ensures |lines| == |texts|
    ensures forall k :: 0 <= k < |texts| ==> lines[k] == Line(depth, texts[k])
  {
    seq(|texts|, k requires 0 <= k < |texts| => Line(depth, texts[k]))
  }

  lemma AtDepthAppend(depth: nat, xs: seq<string>, ys: seq<string>)
    ensures AtDepth(depth, xs + ys) == AtDepth(depth, xs) + AtDepth(depth, ys)
  {
    var l, r := AtDepth(depth, xs + ys), AtDepth(depth, xs) + AtDepth(depth, ys);
    assert |l| == |r|;
    forall k | 0 <= k < |l| ensures l[k] == r[k] {
      if k < |xs| {
        assert (xs + ys)[k] == xs[k];
      } else {
        assert (xs + ys)[k] == ys[k - |xs|];
      }
    }
  }

  /** One more text of the same list, written at the same depth. */
  lemma AtDepthStep(depth: nat, texts: seq<string>, k: nat)
    requires k < |texts|
    ensures AtDepth(depth, texts[..k + 1]) == AtDepth(depth, texts[..k]) + [Line(depth, texts[k])]
  {
    assert texts[..k + 1] == texts[..k] + [texts[k]];
    AtDepthAppend(depth, texts[..k], [texts[k]]);
  }

  /** Where the three parts of a concatenation sit inside it. */
  lemma ConcatParts<T>(a: seq<T>, b: seq<T>, c: seq<T>)
    ensures |a + b + c| == |a| + |b| + |c|
    ensures (a + b + c)[..|a|] == a
    ensures forall k :: 0 <= k < |a| ==> (a + b + c)[k] == a[k]
    ensures forall k :: |a| <= k < |a| + |b| ==> (a + b + c)[k] == b[k - |a|]
    ensures (a + b + c)[|a| + |b|..] == c
  {
  }

  /** A line buffer with a current indentation depth. */
  class LineWriter {
    var lines: seq<Line>
    var depth: nat

    constructor ()
      ensures lines == [] && depth == 0
    {
      lines := [];
      depth := 0;
    }

    /** `AppendLine(text)` / `WriteLine(text)`; an empty text is the blank `AppendLine()`. */
    method AppendLine(text: string)
      modifies this
      ensures lines == old(lines) + [Line(old(depth), text)]
      ensures depth == old(depth)
    {
      lines := lines + [Line(depth, text)];
    }

    method Indent()
      modifies this
      ensures lines == old(lines)
      ensures depth == old(depth) + 1
    {
      depth := depth + 1;
    }

    method DecrementIndent()
      requires depth > 0
      modifies this
      ensures lines == old(lines)
      ensures depth == old(depth) - 1
    {
      depth := depth - 1;
    }

    /** Entering `WriteBlock()`: an opening brace, then one level deeper. */
    method OpenBlock()
      modifies this
      ensures lines == old(lines) + [Line(old(depth), "{")]
      ensures depth == old(depth) + 1
    {
      AppendLine("{");
      Indent();
    }

    /** Leaving a `WriteBlock()`: one level back, then the closing brace. */
    method CloseBlock()
      requires depth > 0
      modifies this
      ensures lines == old(lines) + [Line(old(depth) - 1, "}")]
      ensures depth == old(depth) - 1
    {
      DecrementIndent();
      AppendLine("}");
    }
  }
}
