/** The parts of java.lang.String and java.lang.Character that the request pipeline relies on:
    `isBlank` (through `Character.isWhitespace`) and `replace(CharSequence, CharSequence)`. */
module JavaText {
  import opened Base

  /** `Character.isWhitespace`: the Unicode space, line and paragraph separators except the
      no-break spaces U+00A0, U+2007 and U+202F, plus U+0009..U+000D and U+001C..U+001F. */
  predicate IsWhitespace(c: char)
  {
    || c == ' '
    || ('\t' <= c <= '\r')
    || ('\U{1C}' <= c <= '\U{1F}')
    || c == '\U{1680}'
    || ('\U{2000}' <= c <= '\U{2006}')
    || ('\U{2008}' <= c <= '\U{200A}')
    || c == '\U{2028}' || c == '\U{2029}'
    || c == '\U{205F}' || c == '\U{3000}'
  }

  /** `String.isBlank`: empty, or whitespace only. */
  predicate IsBlank(s: string)
  {
    forall i :: 0 <= i < |s| ==> IsWhitespace(s[i])
  }

  /** `s == null || s.isBlank()`, the test applied to urls, fragments and response bodies. */
  predicate NullOrBlank(s: Option<string>)
  {
    s.None? || IsBlank(s.value)
  }

  predicate OccursAt(s: string, t: string, i: int)
  {
    0 <= i && i + |t| <= |s| && s[i..i + |t|] == t
  }

  predicate Contains(s: string, t: string)
  {
    exists i :: 0 <= i <= |s| - |t| && OccursAt(s, t, i)
  }

  /** `s.replace(target, replacement)` for a non-empty target: scanning from the left, every
      occurrence of target that does not overlap an earlier replaced one is replaced. */
  function ReplaceAll(s: string, target: string, replacement: string): string
    requires target != []
    decreases |s|
  {
    if |s| < |target| then s
    else if s[..|target|] == target then replacement + ReplaceAll(s[|target|..], target, replacement)
    else [s[0]] + ReplaceAll(s[1..], target, replacement)
  }

  /** The pieces of s between the occurrences of target that ReplaceAll replaces. */
  function Split(s: string, target: string): (pieces: seq<string>)
    requires target != []
    ensures |pieces| >= 1 && pieces[0] <= s
    decreases |s|
  {
    if |s| < |target| then [s]
    else if s[..|target|] == target then [[]] + Split(s[|target|..], target)
    else
      var rest := Split(s[1..], target);
      [[s[0]] + rest[0]] + rest[1..]
  }

  /** The pieces glued back together with sep between neighbours. */
  function Join(pieces: seq<string>, sep: string): string
    requires |pieces| >= 1
    decreases |pieces|
  {
    if |pieces| == 1 then pieces[0] else pieces[0] + sep + Join(pieces[1..], sep)
  }

  /** Gluing a character onto the first piece glues it onto the whole join. */
  lemma JoinConsFirst(c: char, pieces: seq<string>, sep: string)
    requires |pieces| >= 1
    ensures Join([[c] + pieces[0]] + pieces[1..], sep) == [c] + Join(pieces, sep)
  {
    var glued := [[c] + pieces[0]] + pieces[1..];
    if |pieces| > 1 {
      assert glued[1..] == pieces[1..];
    }
  }

  lemma {:induction false} ReplaceAllIsJoinOfSplit(s: string, target: string, replacement: string)
    requires target != []
    ensures ReplaceAll(s, target, replacement) == Join(Split(s, target), replacement)
    decreases |s|
  {
    if |s| < |target| {
    } else if s[..|target|] == target {
      var rest := Split(s[|target|..], target);
      ReplaceAllIsJoinOfSplit(s[|target|..], target, replacement);
      assert ([[]] + rest)[1..] == rest;
    } else {
      var rest := Split(s[1..], target);
      ReplaceAllIsJoinOfSplit(s[1..], target, replacement);
      JoinConsFirst(s[0], rest, replacement);
    }
  }

  lemma {:induction false} ReplaceAllWithTarget(s: string, target: string)
    requires target != []
    ensures ReplaceAll(s, target, target) == s
    decreases |s|
  {
    if |s| < |target| {
    } else if s[..|target|] == target {
      ReplaceAllWithTarget(s[|target|..], target);
      assert s == s[..|target|] + s[|target|..];
    } else {
      ReplaceAllWithTarget(s[1..], target);
      assert s == [s[0]] + s[1..];
    }
  }

  lemma {:induction false} SplitPiecesAreFree(s: string, target: string)
    requires target != []
    ensures forall p :: p in Split(s, target) ==> !Contains(p, target)
    decreases |s|
  {
    if |s| < |target| {
      assert forall i :: !OccursAt(s, target, i);
    } else if s[..|target|] == target {
      SplitPiecesAreFree(s[|target|..], target);
      assert forall i :: !OccursAt([], target, i);
    } else {
      var rest := Split(s[1..], target);
      SplitPiecesAreFree(s[1..], target);
      var first := [s[0]] + rest[0];
      forall i | 0 <= i <= |first| - |target|
        ensures !OccursAt(first, target, i)
      {
        if i == 0 {
          assert Split(s, target)[0] == first;
          assert first == s[..|first|];
          assert forall k :: 0 <= k < |target| ==> first[k] == s[k];
          assert first[..|target|] == s[..|target|];
        } else {
          assert first[i..i + |target|] == rest[0][i - 1..i - 1 + |target|];
          assert rest[0] in rest && !Contains(rest[0], target);
          assert !OccursAt(rest[0], target, i - 1);
        }
      }
      assert forall p :: p in Split(s, target) ==> p == first || p in rest;
    }
  }

  /** Java's `replace` as a split and a join: s is its pieces joined by target, no piece
      holds a whole target, and the result is the same pieces joined by replacement. Every
      character outside the replaced occurrences is kept, in order. */
  lemma ReplaceAllCharacterized(s: string, target: string, replacement: string)
    requires target != []
    ensures var pieces := Split(s, target);
      && Join(pieces, target) == s
      && (forall p :: p in pieces ==> !Contains(p, target))
      && ReplaceAll(s, target, replacement) == Join(pieces, replacement)
  {
    ReplaceAllIsJoinOfSplit(s, target, replacement);
    ReplaceAllIsJoinOfSplit(s, target, target);
    ReplaceAllWithTarget(s, target);
    SplitPiecesAreFree(s, target);
  }

  /** A string without the target is returned unchanged. */
  lemma {:induction false} ReplaceAllAbsent(s: string, target: string, replacement: string)
    requires target != [] && !Contains(s, target)
    ensures ReplaceAll(s, target, replacement) == s
    decreases |s|
  {
    if |s| >= |target| {
      assert !OccursAt(s, target, 0);
      forall i | 0 <= i <= |s| - 1 - |target|
        ensures !OccursAt(s[1..], target, i)
      {
        assert s[1..][i..i + |target|] == s[i + 1..i + 1 + |target|];
        assert !OccursAt(s, target, i + 1);
      }
      ReplaceAllAbsent(s[1..], target, replacement);
      assert s == [s[0]] + s[1..];
    }
  }

  /** A string none of whose characters is the target's first one does not contain it. */
  lemma LacksFirstChar(s: string, target: string)
    requires target != [] && forall i :: 0 <= i < |s| ==> s[i] != target[0]
    ensures !Contains(s, target)
  {
    forall i | 0 <= i <= |s| - |target|
      ensures !OccursAt(s, target, i)
    {
      assert s[i..i + |target|][0] == s[i];
    }
  }

  /** Replacing a one-character target distributes over concatenation. */
  lemma {:induction false} ReplaceCharConcat(a: string, b: string, x: char, replacement: string)
    ensures ReplaceAll(a + b, [x], replacement) == ReplaceAll(a, [x], replacement) + ReplaceAll(b, [x], replacement)
  {
    if a != [] {
      assert (a + b)[1..] == a[1..] + b;
      assert (a + b)[..1] == a[..1] == [a[0]];
      ReplaceCharConcat(a[1..], b, x, replacement);
      if a[0] == x {
        calc {
          ReplaceAll(a + b, [x], replacement);
          replacement + ReplaceAll(a[1..] + b, [x], replacement);
          replacement + (ReplaceAll(a[1..], [x], replacement) + ReplaceAll(b, [x], replacement));
          (replacement + ReplaceAll(a[1..], [x], replacement)) + ReplaceAll(b, [x], replacement);
        }
      } else {
        calc {
          ReplaceAll(a + b, [x], replacement);
          [a[0]] + ReplaceAll(a[1..] + b, [x], replacement);
          [a[0]] + (ReplaceAll(a[1..], [x], replacement) + ReplaceAll(b, [x], replacement));
          ([a[0]] + ReplaceAll(a[1..], [x], replacement)) + ReplaceAll(b, [x], replacement);
        }
      }
    } else {
      assert a + b == b;
    }
  }

  /** A replacement free of c never adds a c: the count can only drop. */
  lemma {:induction false} ReplaceAllKeepsCharCount(s: string, target: string, replacement: string, c: char)
    requires target != [] && CountChar(replacement, c) == 0
    ensures CountChar(ReplaceAll(s, target, replacement), c) <= CountChar(s, c)
    decreases |s|
  {
    if |s| < |target| {
    } else if s[..|target|] == target {
      ReplaceAllKeepsCharCount(s[|target|..], target, replacement, c);
      CountCharConcat(replacement, ReplaceAll(s[|target|..], target, replacement), c);
      CountCharConcat(s[..|target|], s[|target|..], c);
      assert s == s[..|target|] + s[|target|..];
    } else {
      ReplaceAllKeepsCharCount(s[1..], target, replacement, c);
      CountCharConcat([s[0]], ReplaceAll(s[1..], target, replacement), c);
      assert ([s[0]] + ReplaceAll(s[1..], target, replacement))[1..] == ReplaceAll(s[1..], target, replacement);
    }
  }

  /** A first character that cannot start the target is kept and the scan moves on. */
  lemma ReplaceAllKeepsHead(s: string, target: string, replacement: string)
    requires target != [] && s != [] && s[0] != target[0]
    ensures ReplaceAll(s, target, replacement) == [s[0]] + ReplaceAll(s[1..], target, replacement)
  {
    if |s| < |target| {
      assert [s[0]] + s[1..] == s;
    } else {
      assert s[..|target|][0] == s[0];
    }
  }

  /** Text none of whose characters can start the target passes through unchanged, and the
      scan resumes after it. */
  lemma {:induction false} ReplaceAllSkipsPrefix(a: string, s: string, target: string, replacement: string)
    requires target != []
    requires forall i :: 0 <= i < |a| ==> a[i] != target[0]
    ensures ReplaceAll(a + s, target, replacement) == a + ReplaceAll(s, target, replacement)
    decreases |a|
  {
    if a != [] {
      var rest := ReplaceAll(s, target, replacement);
      assert (a + s)[0] == a[0];
      assert (a + s)[1..] == a[1..] + s;
      ReplaceAllKeepsHead(a + s, target, replacement);
      ReplaceAllSkipsPrefix(a[1..], s, target, replacement);
      assert [a[0]] + (a[1..] + rest) == a + rest;
    } else {
      assert a + s == s;
    }
  }

  /** An occurrence at the start is replaced and the scan resumes after it. */
  lemma ReplaceAllAtStart(s: string, target: string, replacement: string)
    requires target != []
    ensures ReplaceAll(target + s, target, replacement) == replacement + ReplaceAll(s, target, replacement)
  {
    assert (target + s)[..|target|] == target;
    assert (target + s)[|target|..] == s;
  }

  /** A string shorter than the target is left as it is. */
  lemma ReplaceAllShort(s: string, target: string, replacement: string)
    requires target != [] && |s| < |target|
    ensures ReplaceAll(s, target, replacement) == s
  {
  }

  /** One occurrence at the start, then text that cannot hold another: only that one is
      replaced. */
  lemma ReplaceAllOnlyAtStart(target: string, middle: string, rest: string, replacement: string)
    requires target != []
    requires forall i :: 0 <= i < |middle| ==> middle[i] != target[0]
    requires |rest| < |target|
    ensures ReplaceAll(target + middle + rest, target, replacement) == replacement + middle + rest
  {
    assert target + middle + rest == target + (middle + rest);
    ReplaceAllAtStart(middle + rest, target, replacement);
    ReplaceAllSkipsPrefix(middle, rest, target, replacement);
    ReplaceAllShort(rest, target, replacement);
  }

  /** Text that cannot start the target followed by one occurrence: only that one is
      replaced. */
  lemma ReplaceAllAtEnd(front: string, target: string, replacement: string)
    requires target != []
    requires forall i :: 0 <= i < |front| ==> front[i] != target[0]
    ensures ReplaceAll(front + target, target, replacement) == front + replacement
  {
    ReplaceAllSkipsPrefix(front, target, target, replacement);
    assert target + [] == target;
    ReplaceAllAtStart([], target, replacement);
    assert ReplaceAll([], target, replacement) == [];
    assert replacement + [] == replacement;
  }
}
