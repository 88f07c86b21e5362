/** What a metric label is made of: the path itself, with whole ids masked by ":id". */
module Labels {
  import opened Routes

  /** A UUID anywhere; behind a slash also a number, or sixteen and more token characters. */
  predicate IsId(piece: string, behindSlash: bool) {
    || (|piece| == 36 && StartsWithUuid(piece))
    || (behindSlash && |piece| >= 16 && forall c | c in piece :: IsTokenChar(c))
    || (behindSlash && |piece| >= 1 && forall c | c in piece :: IsDigit(c))
  }

  /** The label starts with ":id" for the first `n` characters of the text, and masks the rest. */
  ghost predicate MasksId(shown: string, text: string, behindSlash: bool, n: nat)
    decreases |text|, 0
  {
    && 1 <= n <= |text| && IsId(text[..n], behindSlash)
    && |shown| >= 3 && shown[..3] == ":id" && Masks(shown[3..], text[n..], false)
  }

  /** The label is the text, character by character, but for disjoint ids that have become ":id". */
  ghost predicate Masks(shown: string, text: string, behindSlash: bool)
    decreases |text|, 1
  {
    || (shown == "" && text == "")
    || (shown != "" && text != "" && shown[0] == text[0] && Masks(shown[1..], text[1..], text[0] == '/'))
    || exists n: nat :: MasksId(shown, text, behindSlash, n)
  }

  lemma MasksCopy(c: char, shown: string, text: string, behindSlash: bool)
    requires text != "" && text[0] == c && Masks(shown, text[1..], c == '/')
    ensures Masks([c] + shown, text, behindSlash)
  {
    assert ([c] + shown)[1..] == shown;
  }

  lemma MasksReplace(shown: string, text: string, behindSlash: bool, n: nat)
    requires 1 <= n <= |text| && IsId(text[..n], behindSlash) && Masks(shown, text[n..], false)
    ensures Masks(":id" + shown, text, behindSlash)
  {
    assert (":id" + shown)[3..] == shown && (":id" + shown)[..3] == ":id";
    assert MasksId(":id" + shown, text, behindSlash, n);
  }

  lemma {:induction false} FirstPassMasks(s: string, behindSlash: bool)
    ensures Masks(ReplaceUuids(s), s, behindSlash)
    decreases |s|
  {
    if s == "" {
    } else if StartsWithUuid(s) {
      FirstPassMasks(s[36..], false);
      assert StartsWithUuid(s[..36]);
      MasksReplace(ReplaceUuids(s[36..]), s, behindSlash, 36);
    } else {
      FirstPassMasks(s[1..], s[0] == '/');
      MasksCopy(s[0], ReplaceUuids(s[1..]), s, behindSlash);
    }
  }

  /** Where a label shows neither a colon nor a slash, it shows the text. */
  lemma {:induction false} PlainStretch(shown: string, text: string, behindSlash: bool, n: nat)
    requires Masks(shown, text, behindSlash) && n <= |shown| && forall i | 0 <= i < n :: shown[i] !in {':', '/'}
    ensures n <= |text| && shown[..n] == text[..n]
    ensures n > 0 ==> Masks(shown[n..], text[n..], false)
    decreases n
  {
    if n == 0 {
    } else {
      assert !exists k: nat :: MasksId(shown, text, behindSlash, k) by {
        forall k: nat ensures !MasksId(shown, text, behindSlash, k) {
          assert |shown| >= 3 ==> shown[..3][0] == shown[0] != ':';
        }
      }
      PlainStretch(shown[1..], text[1..], text[0] == '/', n - 1);
      assert shown[..n] == [shown[0]] + shown[1..][..n - 1] && text[..n] == [text[0]] + text[1..][..n - 1];
      assert shown[1..][n - 1..] == shown[n..] && text[1..][n - 1..] == text[n..];
    }
  }

  lemma RunIsId(k: Class, s: string)
    requires Run(k, s) >= k.Min()
    ensures IsId(s[..Run(k, s)], true)
    ensures forall i | 0 <= i < Run(k, s) :: s[i] !in {':', '/'}
  {
    RunMembers(k, s);
    assert forall i | 0 <= i < Run(k, s) :: s[..Run(k, s)][i] == s[i];
  }

  /** A pass after slashes masks more of the same text. */
  lemma {:induction false} PassMasks(k: Class, shown: string, text: string, behindSlash: bool)
    requires Masks(shown, text, behindSlash)
    ensures Masks(Collapse(k, shown), text, behindSlash)
    decreases |shown|
  {
    hide IsId, Run;
    if shown == "" {
    } else if text != "" && shown[0] == text[0] && Masks(shown[1..], text[1..], text[0] == '/') {
      var n := Run(k, shown[1..]);
      if shown[0] == '/' && n >= k.Min() {
        RunIsId(k, shown[1..]);
        PlainStretch(shown[1..], text[1..], true, n);
        assert shown[1..][n..] == shown[1 + n..];
        PassMasks(k, shown[1 + n..], text[1..][n..], false);
        MasksReplace(Collapse(k, shown[1 + n..]), text[1..], true, n);
        MasksCopy('/', ":id" + Collapse(k, shown[1 + n..]), text, behindSlash);
        assert "/:id" + Collapse(k, shown[1 + n..]) == ['/'] + (":id" + Collapse(k, shown[1 + n..]));
      } else {
        PassMasks(k, shown[1..], text[1..], text[0] == '/');
        MasksCopy(shown[0], Collapse(k, shown[1..]), text, behindSlash);
      }
    } else {
      var n: nat :| MasksId(shown, text, behindSlash, n);
      PassMasks(k, shown[3..], text[n..], false);
      MasksReplace(Collapse(k, shown[3..]), text, behindSlash, n);
      PassCopiesId(k, shown);
    }
  }

  lemma PassCopiesId(k: Class, shown: string)
    requires |shown| >= 3 && shown[..3] == ":id"
    ensures Collapse(k, shown) == ":id" + Collapse(k, shown[3..])
  {
    assert shown[0] == shown[..3][0] && shown[1] == shown[..3][1] && shown[2] == shown[..3][2];
    assert shown[1..][1..] == shown[2..] && shown[2..][1..] == shown[3..];
    assert Collapse(k, shown) == [':'] + Collapse(k, shown[1..]);
    assert Collapse(k, shown[1..]) == ['i'] + Collapse(k, shown[2..]);
    assert Collapse(k, shown[2..]) == ['d'] + Collapse(k, shown[3..]);
  }

  lemma {:induction false} BaseEndsAtTheQuery(path: string, n: nat)
    requires n <= |path| && '?' !in path[..n] && (n < |path| ==> path[n] == '?')
    ensures Base(path) == path[..n]
    decreases n
  {
    if n == 0 {
    } else {
      assert path[0] == path[..n][0];
      assert path[..n] == [path[0]] + path[1..][..n - 1];
      BaseEndsAtTheQuery(path[1..], n - 1);
    }
  }

  /**
   The label of a path is its part before the first '?', at `n`, with whole ids, and nothing else, masked by ":id":
   UUIDs anywhere, and numbers and long tokens behind a slash.
   */
  lemma LabelsMaskIds(path: string, n: nat)
    requires n <= |path| && '?' !in path[..n] && (n < |path| ==> path[n] == '?')
    ensures Masks(NormalizeRoute(path), path[..n], false)
  {
    var first := ReplaceUuids(Base(path));
    BaseEndsAtTheQuery(path, n);
    FirstPassMasks(Base(path), false);
    PassMasks(LongToken, first, Base(path), false);
    PassMasks(Integer, Collapse(LongToken, first), Base(path), false);
  }

  // ---------------------------------------------------------------- case

  function LowerChar(c: char): char {
    if 'A' <= c <= 'Z' then c - 'A' + 'a' else c
  }

  function Lower(s: string): (t: string)
    ensures |t| == |s| && forall i | 0 <= i < |s| :: t[i] == LowerChar(s[i])
  {
    if s == "" then "" else [LowerChar(s[0])] + Lower(s[1..])
  }

  lemma LowerSplits(s: string, n: nat)
    requires n <= |s|
    ensures Lower(s[n..]) == Lower(s)[n..]
  {
  }

  lemma LowerClasses(c: char)
    ensures IsHex(LowerChar(c)) == IsHex(c) && LongToken.Has(LowerChar(c)) == LongToken.Has(c)
    ensures Integer.Has(LowerChar(c)) == Integer.Has(c)
    ensures LowerChar(c) == '-' <==> c == '-'
    ensures LowerChar(c) == '/' <==> c == '/'
    ensures LowerChar(c) == '?' <==> c == '?'
  {
  }

  lemma LowerUuid(s: string)
    ensures StartsWithUuid(Lower(s)) <==> StartsWithUuid(s)
  {
    forall i | 0 <= i < |s| ensures IsHex(Lower(s)[i]) == IsHex(s[i]) && (Lower(s)[i] == '-' <==> s[i] == '-') {
      LowerClasses(s[i]);
    }
  }

  lemma {:induction false} LowerBase(path: string)
    ensures Base(Lower(path)) == Lower(Base(path))
  {
    if path == "" {
    } else {
      LowerClasses(path[0]);
      LowerSplits(path, 1);
      LowerBase(path[1..]);
    }
  }

  lemma {:induction false} LowerReplaceUuids(s: string)
    ensures ReplaceUuids(Lower(s)) == Lower(ReplaceUuids(s))
    decreases |s|
  {
    LowerUuid(s);
    if s == "" {
    } else if StartsWithUuid(s) {
      LowerSplits(s, 36);
      LowerReplaceUuids(s[36..]);
      assert Lower(":id" + ReplaceUuids(s[36..])) == ":id" + Lower(ReplaceUuids(s[36..]));
    } else {
      LowerSplits(s, 1);
      LowerReplaceUuids(s[1..]);
      assert Lower([s[0]] + ReplaceUuids(s[1..])) == [LowerChar(s[0])] + Lower(ReplaceUuids(s[1..]));
    }
  }

  lemma {:induction false} LowerRun(k: Class, s: string)
    ensures Run(k, Lower(s)) == Run(k, s)
  {
    if s == "" {
    } else {
      LowerClasses(s[0]);
      LowerSplits(s, 1);
      LowerRun(k, s[1..]);
    }
  }

  lemma LowerAppends(a: string, b: string)
    ensures Lower(a + b) == Lower(a) + Lower(b)
  {
  }

  lemma LowerMask()
    ensures Lower("/:id") == "/:id"
  {
  }

  lemma {:induction false} LowerCollapse(k: Class, s: string)
    ensures Collapse(k, Lower(s)) == Lower(Collapse(k, s))
    decreases |s|
  {
    if s == "" {
    } else {
      LowerClasses(s[0]);
      LowerSplits(s, 1);
      LowerRun(k, s[1..]);
      hide Lower, Run, LowerChar;
      if s[0] == '/' && Run(k, s[1..]) >= k.Min() {
        var n := 1 + Run(k, s[1..]);
        LowerSplits(s, n);
        LowerCollapse(k, s[n..]);
        LowerMask();
        LowerAppends("/:id", Collapse(k, s[n..]));
      } else {
        LowerCollapse(k, s[1..]);
        assert Lower([s[0]]) == [LowerChar(s[0])];
        LowerAppends([s[0]], Collapse(k, s[1..]));
      }
    }
  }

  /** The ids are recognised in either case: a path and its lower-case form get one label, up to case. */
  lemma CaseDoesNotMatter(path: string)
    ensures NormalizeRoute(Lower(path)) == Lower(NormalizeRoute(path))
  {
    LowerBase(path);
    LowerReplaceUuids(Base(path));
    LowerCollapse(LongToken, ReplaceUuids(Base(path)));
    LowerCollapse(Integer, Collapse(LongToken, ReplaceUuids(Base(path))));
  }
}
