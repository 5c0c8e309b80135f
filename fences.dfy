/** Cleaning the text Gemini returns before it is parsed: every
    case-insensitive "```json" is removed with the whitespace after it, then
    every "```" with the whitespace after it, then the result is trimmed
    (api/generate.js:126-129). Both removals are global regular-expression
    replacements, which scan left to right and resume after each match; the
    functions below scan the same way. */
module Fences {
  import opened JsStrings

  /** A run of three backticks starts at position `i` of `s`. */
  predicate FenceAt(s: string, i: int) {
    0 <= i && i + 3 <= |s| && s[i] == '`' && s[i + 1] == '`' && s[i + 2] == '`'
  }

  predicate FenceFree(s: string) {
    forall i | 0 <= i < |s| :: !FenceAt(s, i)
  }

  /** `c` matches the lower-case ASCII letter `lower` under the `i` flag: the
      flag folds only ASCII letters onto one another here, because a
      non-ASCII character whose upper case is ASCII is left as it is. */
  predicate SameLetterIgnoringCase(c: char, lower: char)
    requires 'a' <= lower <= 'z'
  {
    c == lower || c as int == lower as int - 32
  }

  /** `s` starts with a match of /```json/i. */
  predicate StartsWithJsonFence(s: string) {
    && FenceAt(s, 0) && |s| >= 7
    && SameLetterIgnoringCase(s[3], 'j') && SameLetterIgnoringCase(s[4], 's')
    && SameLetterIgnoringCase(s[5], 'o') && SameLetterIgnoringCase(s[6], 'n')
  }

  /** `s.replace(/```json\s*\/gi, '')` */
  function StripJsonFences(s: string): (r: string)
    ensures |r| <= |s|
    decreases |s|
  {
    if s == [] then []
    else if StartsWithJsonFence(s) then StripJsonFences(TrimStart(s[7..]))
    else [s[0]] + StripJsonFences(s[1..])
  }

  /** `s.replace(/```\s*\/gi, '')` */
  function StripFences(s: string): (r: string)
    ensures |r| <= |s|
    decreases |s|
  {
    if s == [] then []
    else if FenceAt(s, 0) then StripFences(TrimStart(s[3..]))
    else [s[0]] + StripFences(s[1..])
  }

  /** The cleaned text handed to JSON.parse. */
  function Clean(raw: string): (r: string)
    ensures |r| <= |raw|
  {
    Trim(StripFences(StripJsonFences(raw)))
  }

  /** The cleaned text never carries whitespace at its ends. */
  lemma {:induction false} CleanUnpadded(raw: string)
    ensures Unpadded(Clean(raw))
  {
    var _ := TrimSpec(StripFences(StripJsonFences(raw)));
  }

  /** No run of three backticks survives cleaning. */
  lemma {:induction false} CleanLeavesNoFence(raw: string)
    ensures FenceFree(Clean(raw))
  {
    var stripped := StripFences(StripJsonFences(raw));
    StripFencesLeavesNoFence(StripJsonFences(raw));
    TrimKeepsFenceFree(stripped);
  }

  lemma {:induction false} TrimKeepsFenceFree(s: string)
    requires FenceFree(s)
    ensures FenceFree(Trim(s))
  {
    var i := TrimSpec(s);
    var t := Trim(s);
    FenceFreeSlice(s, i, i + |t|);
  }

  lemma {:induction false} FenceAtSlice(s: string, i: int, j: int, k: int)
    requires 0 <= i <= j <= |s|
    requires FenceAt(s[i..j], k)
    ensures FenceAt(s, i + k)
  {
    assert s[i..j][k] == s[i + k] && s[i..j][k + 1] == s[i + k + 1] && s[i..j][k + 2] == s[i + k + 2];
  }

  /** A piece of a fence-free string is fence-free. */
  lemma {:induction false} FenceFreeSlice(s: string, i: int, j: int)
    requires 0 <= i <= j <= |s|
    requires FenceFree(s)
    ensures FenceFree(s[i..j])
  {
    forall k | 0 <= k < j - i ensures !FenceAt(s[i..j], k) {
      if FenceAt(s[i..j], k) {
        FenceAtSlice(s, i, j, k);
      }
    }
  }

  /** Text that holds no "```" passes both removals unchanged. */
  lemma {:induction false} FenceFreeUnchanged(s: string)
    requires FenceFree(s)
    ensures StripJsonFences(s) == s
    ensures StripFences(s) == s
  {
    if s != [] {
      assert !FenceAt(s, 0);
      FenceFreeSlice(s, 1, |s|);
      assert s[1..|s|] == s[1..];
      FenceFreeUnchanged(s[1..]);
    }
  }

  /** Text that holds no "```" is merely trimmed. */
  lemma {:induction false} CleanFenceFree(raw: string)
    requires FenceFree(raw)
    ensures Clean(raw) == Trim(raw)
  {
    FenceFreeUnchanged(raw);
  }

  /** The first removal only ever drops whole "```json" matches: a
      fence-free text followed by one closing "```" is left alone. */
  lemma {:induction false} JsonFencesKeepClosing(y: string)
    requires FenceFree(y)
    ensures StripJsonFences(y + "```") == y + "```"
  {
    var s := y + "```";
    if y == [] {
      assert s == "```";
      assert StripJsonFences("`") == "`";
      assert StripJsonFences("``") == ['`'] + StripJsonFences("``"[1..]);
      assert "``"[1..] == "`";
      assert StripJsonFences("```") == ['`'] + StripJsonFences("```"[1..]);
      assert "```"[1..] == "``";
    } else {
      if StartsWithJsonFence(s) {
        assert FenceAt(y, 0);
        assert false;
      }
      assert s[1..] == y[1..] + "```";
      FenceFreeSlice(y, 1, |y|);
      assert y[1..|y|] == y[1..];
      JsonFencesKeepClosing(y[1..]);
    }
  }

  /** The second removal drops exactly the closing "```" of a fence-free
      text (when the text itself ends in backticks, the match begins inside
      it, and what is left over is the same string). */
  lemma {:induction false} FencesDropClosing(y: string)
    requires FenceFree(y)
    ensures StripFences(y + "```") == y
  {
    var s := y + "```";
    if FenceAt(s, 0) {
      if |y| >= 3 {
        assert FenceAt(y, 0);
        assert false;
      }
      assert s[3..] == y by {
        forall i | 0 <= i < |y| ensures s[3..][i] == y[i] {
          assert s[i] == '`';
          assert s[3 + i] == "```"[3 + i - |y|];
        }
      }
      assert TrimStart(y) == y;
      FenceFreeUnchanged(y);
    } else {
      assert y != [];
      assert s[1..] == y[1..] + "```";
      FenceFreeSlice(y, 1, |y|);
      assert y[1..|y|] == y[1..];
      FencesDropClosing(y[1..]);
    }
  }

  /** A reply wrapped as "```json" + whitespace + X + "```", with no "```"
      inside X, cleans to X trimmed. */
  lemma {:induction false} CleanUnwrapsJsonFence(ws: string, x: string)
    requires AllWhitespace(ws)
    requires FenceFree(x)
    ensures Clean("```json" + ws + x + "```") == Trim(x)
  {
    var s := "```json" + ws + x + "```";
    var y := TrimStart(x);
    TrimStartSpec(x);
    FenceFreeSlice(x, |x| - |y|, |x|);
    assert x[|x| - |y|..|x|] == y;
    OpeningFenceDropped(ws, x);
    JsonFencesKeepClosing(y);
    var a := StripJsonFences(s);
    assert a == y + "```";
    FencesDropClosing(y);
    assert StripFences(a) == y;
    TrimAfterTrimStart(x);
    assert Clean(s) == Trim(y);
  }

  /** Wrapping a fence-free reply in a "```json" fence does not change what
      is parsed. */
  lemma {:induction false} FencedSameAsBare(ws: string, x: string)
    requires AllWhitespace(ws)
    requires FenceFree(x)
    ensures Clean("```json" + ws + x + "```") == Clean(x)
  {
    CleanUnwrapsJsonFence(ws, x);
    CleanFenceFree(x);
  }

  /** The opening "```json" goes together with all the whitespace after it,
      including any at the start of X. */
  lemma {:induction false} OpeningFenceDropped(ws: string, x: string)
    requires AllWhitespace(ws)
    ensures StripJsonFences("```json" + ws + x + "```") == StripJsonFences(TrimStart(x) + "```")
  {
    var tail := x + "```";
    var body := ws + tail;
    var s := "```json" + body;
    assert "```json" + ws + x + "```" == s;
    JsonFenceStep("```json", body);
    TrimStartSkipsWhitespace(ws, tail);
    TrimStartStopsBefore(x, "```");
  }

  /** A leading match of /```json\s*\/i is removed and the scan resumes
      after it. */
  lemma {:induction false} JsonFenceStep(fence: string, rest: string)
    requires |fence| == 7 && StartsWithJsonFence(fence)
    ensures StripJsonFences(fence + rest) == StripJsonFences(TrimStart(rest))
  {
    var s := fence + rest;
    assert s[..7] == fence && s[7..] == rest;
    assert StartsWithJsonFence(s);
  }

  /** The language tag is matched without regard to case: "```JSON",
      "```Json", ... are removed exactly as "```json" is. */
  lemma {:induction false} JsonTagAnyCase(tag: string, rest: string)
    requires |tag| == 4
    requires SameLetterIgnoringCase(tag[0], 'j') && SameLetterIgnoringCase(tag[1], 's')
    requires SameLetterIgnoringCase(tag[2], 'o') && SameLetterIgnoringCase(tag[3], 'n')
    ensures Clean("```" + tag + rest) == Clean("```json" + rest)
  {
    var s, t := "```" + tag + rest, "```json" + rest;
    assert StartsWithJsonFence(s) && StartsWithJsonFence(t);
    assert s[7..] == rest == t[7..];
  }

  lemma {:induction false} UpperCaseJsonTag(rest: string)
    ensures Clean("```JSON" + rest) == Clean("```json" + rest)
  {
    assert "```" + "JSON" + rest == "```JSON" + rest;
    JsonTagAnyCase("JSON", rest);
  }

  /** Whatever the second removal returns holds no "```": a backtick it
      keeps is never followed by two more. */
  lemma {:induction false} StripFencesLeavesNoFence(s: string)
    ensures FenceFree(StripFences(s))
    decreases |s|
  {
    if s == [] {
    } else if FenceAt(s, 0) {
      StripFencesLeavesNoFence(TrimStart(s[3..]));
    } else {
      var tail := StripFences(s[1..]);
      StripFencesLeavesNoFence(s[1..]);
      var r := [s[0]] + tail;
      assert StripFences(s) == r;
      if s[0] == '`' && |s| >= 3 {
        if s[1] != '`' {
          assert !FenceAt(s[1..], 0);
          assert tail[0] == s[1];
        } else {
          assert s[2] != '`';
          assert !FenceAt(s[1..], 0);
          assert !FenceAt(s[2..], 0);
          assert s[1..][1..] == s[2..];
          assert tail == [s[1]] + StripFences(s[2..]);
          assert StripFences(s[2..]) == [s[2]] + StripFences(s[2..][1..]);
          assert tail[1] == s[2];
        }
      }
      forall k | 0 <= k < |r| ensures !FenceAt(r, k) {
        if k > 0 {
          assert r[1..] == tail;
          if FenceAt(r, k) {
            FenceAtTail(r, k);
          }
        }
      }
    }
  }

  lemma {:induction false} FenceAtTail(r: string, k: int)
    requires 0 < k && FenceAt(r, k)
    ensures FenceAt(r[1..], k - 1)
  {
  }
}
