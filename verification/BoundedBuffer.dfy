/** The text sink that captures an experiment's output: it keeps only the newest characters. */
module BoundedBuffer {
  import opened Common

  function Concat(chunks: seq<string>): string {
    if chunks == [] then "" else chunks[0] + Concat(chunks[1..])
  }

  /** The last `n` characters of a text, or all of it when it is shorter. */
  function Last(text: string, n: nat): (r: string)
    ensures |r| == if |text| <= n then |text| else n
  {
    if |text| <= n then text else text[|text| - n..]
  }

  /** What a reader of the buffer can observe. */
  datatype Retained = Retained(value: string, size: nat, truncated: bool)

  /** The effect of one write. */
  function Step(r: Retained, text: string, cap: nat): Retained {
    var value := Last(r.value + text, cap);
    Retained(value, |value|, r.truncated || |r.value| + |text| > cap)
  }

  function After(writes: seq<string>, cap: nat): Retained {
    if writes == [] then Retained("", 0, false)
    else Step(After(writes[..|writes| - 1], cap), writes[|writes| - 1], cap)
  }

  class BoundedTextBuffer {
    const maxOutputChars: nat
    var truncated: bool
    var chunks: seq<string>
    var size: nat

    ghost predicate Valid()
      reads this
    {
      size == |Concat(chunks)| && size <= maxOutputChars
    }

    ghost function Observed(): Retained
      reads this
    {
      Retained(Concat(chunks), size, truncated)
    }

    constructor (max: nat)
      ensures Valid() && maxOutputChars == max && Observed() == After([], max)
    {
      maxOutputChars := max;
      truncated := false;
      chunks := [];
      size := 0;
    }

    method Write(text: string) returns (charsWritten: nat)
      requires Valid()
      modifies this
      ensures Valid() && charsWritten == |text|
      ensures Observed() == Step(old(Observed()), text, maxOutputChars)
    {
      hide Concat;
      charsWritten := |text|;
      if charsWritten == 0 {
        assert Concat(chunks) + text == Concat(chunks);
        return;
      }
      if size + charsWritten > maxOutputChars {
        truncated := true;
      }
      if maxOutputChars == 0 {
        ConcatNone();
        chunks := [];
        size := 0;
        return;
      }
      if charsWritten >= maxOutputChars {
        var tail := text[|text| - maxOutputChars..];
        LastOfLongText(Concat(chunks), text, maxOutputChars);
        chunks := [tail];
        size := |tail|;
        ConcatOne(tail);
        return;
      }
      ConcatSnoc(chunks, text);
      chunks := chunks + [text];
      size := size + charsWritten;
      Trim();
    }

    /** The loop that drops the oldest characters until the rest fits. */
    method Trim()
      requires size == |Concat(chunks)|
      modifies this`chunks, this`size
      ensures Valid() && Concat(chunks) == Last(old(Concat(chunks)), maxOutputChars)
    {
      var all := Concat(chunks);
      var overflow: int := size - maxOutputChars;
      while overflow > 0
        invariant overflow <= size == |Concat(chunks)| <= |all|
        invariant overflow == size - maxOutputChars || (overflow == 0 && size <= maxOutputChars)
        invariant Concat(chunks) == all[|all| - size..]
        invariant overflow > 0 || size == if |all| <= maxOutputChars then |all| else maxOutputChars
        decreases overflow, |chunks|
      {
        var oldest := chunks[0];
        var rest := Concat(chunks[1..]);
        assert Concat(chunks) == oldest + rest;
        if |oldest| <= overflow {
          chunks := chunks[1..];
          size := size - |oldest|;
          overflow := overflow - |oldest|;
        } else {
          chunks := chunks[0 := oldest[overflow..]];
          size := size - overflow;
          overflow := 0;
        }
      }
    }

    method GetValue() returns (value: string)
      requires Valid()
      ensures value == Observed().value
    {
      value := "";
      var i := 0;
      while i < |chunks|
        invariant 0 <= i <= |chunks| && value == Concat(chunks[..i])
      {
        ConcatSnoc(chunks[..i], chunks[i]);
        assert chunks[..i] + [chunks[i]] == chunks[..i + 1];
        value := value + chunks[i];
        i := i + 1;
      }
      assert chunks[..i] == chunks;
    }
  }

  /** Construction refuses a negative capacity. */
  method Make(max: int) returns (buffer: Option<BoundedTextBuffer>)
    ensures buffer.Some? <==> max >= 0
    ensures buffer.Some? ==> fresh(buffer.value) && buffer.value.Valid() && buffer.value.maxOutputChars == max
    ensures buffer.Some? ==> buffer.value.Observed() == After([], max)
  {
    if max < 0 {
      return None;
    }
    var b := new BoundedTextBuffer(max);
    return Some(b);
  }

  lemma ConcatNone()
    ensures Concat([]) == ""
  {
  }

  lemma ConcatOne(text: string)
    ensures Concat([text]) == text
  {
    assert Concat([text]) == text + Concat([]);
  }

  lemma {:induction false} ConcatSnoc(chunks: seq<string>, text: string)
    ensures Concat(chunks + [text]) == Concat(chunks) + text
  {
    if chunks == [] {
      ConcatOne(text);
    } else {
      ConcatSnoc(chunks[1..], text);
      assert (chunks + [text])[1..] == chunks[1..] + [text];
    }
  }

  lemma LastOfLongText(before: string, text: string, n: nat)
    requires 0 < n <= |text|
    ensures Last(before + text, n) == text[|text| - n..]
  {
  }

  /** Keeping the newest characters after each write is the same as keeping them once at the end. */
  lemma LastAbsorbs(a: string, b: string, n: nat)
    ensures Last(Last(a, n) + b, n) == Last(a + b, n)
  {
  }

  /** After every sequence of writes the buffer holds exactly the newest characters of everything
      written, and says it was truncated exactly when something was dropped. */
  lemma {:induction false} AfterIsLast(writes: seq<string>, cap: nat)
    ensures var all := Concat(writes); var r := After(writes, cap);
      && r.value == Last(all, cap)
      && r.size == (if |all| <= cap then |all| else cap)
      && (r.truncated <==> |all| > cap)
  {
    if writes != [] {
      var init, text := writes[..|writes| - 1], writes[|writes| - 1];
      AfterIsLast(init, cap);
      ConcatSnoc(init, text);
      assert init + [text] == writes;
      LastAbsorbs(Concat(init), text, cap);
    }
  }
}
