/** `normalizeRoute`: three global replacements that keep metric labels few. */
module Routes {

  predicate IsHex(c: char) { '0' <= c <= '9' || 'a' <= c <= 'f' || 'A' <= c <= 'F' }
  predicate IsDigit(c: char) { '0' <= c <= '9' }
  predicate IsTokenChar(c: char) { 'a' <= c <= 'z' || 'A' <= c <= 'Z' || IsDigit(c) || c == '_' || c == '-' }

  /** The part before the first '?'. */
  function Base(path: string): string {
    if path == "" || path[0] == '?' then "" else [path[0]] + Base(path[1..])
  }

  /** `s` starts with 8-4-4-4-12 hex digits. */
  predicate StartsWithUuid(s: string) {
    |s| >= 36 && forall i | 0 <= i < 36 :: if i in {8, 13, 18, 23} then s[i] == '-' else IsHex(s[i])
  }

  /** First pass: every UUID, leftmost first. */
  function ReplaceUuids(s: string): string {
    if s == "" then ""
    else if StartsWithUuid(s) then ":id" + ReplaceUuids(s[36..])
    else [s[0]] + ReplaceUuids(s[1..])
  }

  datatype Class = LongToken | Integer {
    predicate Has(c: char) { if Integer? then IsDigit(c) else IsTokenChar(c) }
    function Min(): nat { if Integer? then 1 else 16 }
  }

  /** The length of the longest prefix of characters of the class: what a greedy repetition takes. */
  function Run(k: Class, s: string): (n: nat)
    ensures n <= |s|
  {
    if s == "" || !k.Has(s[0]) then 0 else 1 + Run(k, s[1..])
  }

  /** Second and third pass: a slash and a long enough run of the class become "/:id". */
  function Collapse(k: Class, s: string): string
    decreases |s|
  {
    if s == "" then ""
    else if s[0] == '/' && Run(k, s[1..]) >= k.Min() then "/:id" + Collapse(k, s[1 + Run(k, s[1..])..])
    else [s[0]] + Collapse(k, s[1..])
  }

  function CollapseBoth(s: string): string {
    Collapse(Integer, Collapse(LongToken, s))
  }

  function NormalizeRoute(path: string): string {
    CollapseBoth(ReplaceUuids(Base(path)))
  }

  // ---------------------------------------------------------------- slashes are kept

  function Count(c: char, s: string): nat {
    if s == "" then 0 else (if s[0] == c then 1 else 0) + Count(c, s[1..])
  }

  lemma {:induction false} CountAdds(c: char, a: string, b: string)
    ensures Count(c, a + b) == Count(c, a) + Count(c, b)
  {
    if a == "" {
      assert a + b == b;
    } else {
      assert (a + b)[1..] == a[1..] + b;
      CountAdds(c, a[1..], b);
    }
  }

  lemma {:induction false} CountZero(c: char, s: string)
    ensures c !in s <==> Count(c, s) == 0
  {
    if s == "" {
    } else {
      CountZero(c, s[1..]);
      assert c in s <==> c == s[0] || c in s[1..];
    }
  }

  lemma CountSplits(c: char, s: string, n: nat)
    requires n <= |s|
    ensures Count(c, s) == Count(c, s[..n]) + Count(c, s[n..])
  {
    assert s == s[..n] + s[n..];
    CountAdds(c, s[..n], s[n..]);
  }

  /** Replacing UUIDs keeps every slash, and takes away hyphens exactly when there is a UUID. */
  lemma {:induction false} UuidsKeepSlashes(s: string)
    ensures Count('/', ReplaceUuids(s)) == Count('/', s)
    ensures Count('-', ReplaceUuids(s)) <= Count('-', s)
    decreases |s|
  {
    if s == "" {
    } else {
      if StartsWithUuid(s) {
        UuidsKeepSlashes(s[36..]);
        UuidCounts(s);
      } else {
        UuidsKeepSlashes(s[1..]);
      }
    }
  }

  lemma UuidCounts(s: string)
    requires StartsWithUuid(s)
    ensures Count('/', s) == Count('/', s[36..])
    ensures Count('-', s) > Count('-', s[36..])
    ensures forall t :: Count('/', ":id" + t) == Count('/', t) && Count('-', ":id" + t) == Count('-', t)
  {
    CountSplits('/', s, 36);
    CountSplits('-', s, 36);
    CountZero('/', s[..36]);
    CountZero('-', s[..36]);
    assert s[..36][8] == '-';
    forall t ensures Count('/', ":id" + t) == Count('/', t) && Count('-', ":id" + t) == Count('-', t) {
      CountAdds('/', ":id", t);
      CountAdds('-', ":id", t);
      CountZero('/', ":id");
      CountZero('-', ":id");
    }
  }

  lemma {:induction false} RunMembers(k: Class, s: string)
    ensures forall i | 0 <= i < Run(k, s) :: k.Has(s[i])
    ensures Run(k, s) < |s| ==> !k.Has(s[Run(k, s)])
  {
    if s == "" || !k.Has(s[0]) {
    } else {
      RunMembers(k, s[1..]);
      assert forall i | 1 <= i < Run(k, s) :: s[i] == s[1..][i - 1];
    }
  }

  lemma RunCounts(k: Class, s: string)
    requires s != "" && s[0] == '/'
    ensures var end := 1 + Run(k, s[1..]);
            Count('/', s) == 1 + Count('/', s[end..]) && Count('-', s[end..]) <= Count('-', s)
  {
    var n := Run(k, s[1..]);
    RunMembers(k, s[1..]);
    CountSplits('/', s[1..], n);
    CountSplits('-', s[1..], n);
    assert s[1..][n..] == s[1 + n..];
    CountZero('/', s[1..][..n]);
  }

  lemma CountCons(c: char, x: char, s: string)
    ensures Count(c, [x] + s) == (if x == c then 1 else 0) + Count(c, s)
  {
    assert ([x] + s)[1..] == s;
  }

  lemma {:induction false} CollapseKeepsSlashes(k: Class, s: string)
    ensures Count('/', Collapse(k, s)) == Count('/', s)
    ensures Count('-', Collapse(k, s)) <= Count('-', s)
    decreases |s|
  {
    hide Count, Run;
    if s == "" {
    } else if s[0] == '/' && Run(k, s[1..]) >= k.Min() {
      var end := 1 + Run(k, s[1..]);
      CollapseKeepsSlashes(k, s[end..]);
      RunCounts(k, s);
      IdCounts(Collapse(k, s[end..]));
    } else {
      CollapseKeepsSlashes(k, s[1..]);
      assert s == [s[0]] + s[1..];
      CountCons('/', s[0], s[1..]);
      CountCons('-', s[0], s[1..]);
      CountCons('/', s[0], Collapse(k, s[1..]));
      CountCons('-', s[0], Collapse(k, s[1..]));
    }
  }

  lemma IdCounts(t: string)
    ensures Count('/', "/:id" + t) == 1 + Count('/', t) && Count('-', "/:id" + t) == Count('-', t)
  {
    CountAdds('/', "/:id", t);
    CountAdds('-', "/:id", t);
    assert "/:id"[1..] == ":id";
    CountZero('/', ":id");
    CountZero('-', "/:id");
  }

  /** The label has as many segments as the path had. */
  lemma SegmentsAreKept(path: string)
    ensures Count('/', NormalizeRoute(path)) == Count('/', Base(path))
  {
    var s := ReplaceUuids(Base(path));
    UuidsKeepSlashes(Base(path));
    CollapseKeepsSlashes(LongToken, s);
    CollapseKeepsSlashes(Integer, Collapse(LongToken, s));
  }

  // ---------------------------------------------------------------- nothing replaceable is left

  /** No slash of `s` is followed by a run of the class that is long enough to replace. */
  predicate Settled(k: Class, s: string) {
    forall i | 0 <= i < |s| && s[i] == '/' :: Run(k, s[i + 1..]) < k.Min()
  }

  lemma SettledCons(k: Class, c: char, s: string)
    requires Settled(k, s) && (c == '/' ==> Run(k, s) < k.Min())
    ensures Settled(k, [c] + s)
  {
    var t := [c] + s;
    forall i | 0 <= i < |t| && t[i] == '/' ensures Run(k, t[i + 1..]) < k.Min() {
      assert t[i + 1..] == s[i..];
      if i > 0 { assert s[i - 1] == '/' && s[i..] == s[(i - 1) + 1..]; } else { assert s[0..] == s; }
    }
  }

  lemma SettledId(k: Class, s: string)
    requires Settled(k, s)
    ensures Settled(k, "/:id" + s)
  {
    SettledCons(k, 'd', s);
    SettledCons(k, 'i', ['d'] + s);
    SettledCons(k, ':', ['i'] + (['d'] + s));
    SettledCons(k, '/', [':'] + (['i'] + (['d'] + s)));
    assert ['/'] + ([':'] + (['i'] + (['d'] + s))) == "/:id" + s;
  }

  /** Replacing after slashes does not lengthen a run of characters that starts where no slash stands. */
  lemma {:induction false} RunThroughCollapse(k: Class, j: Class, s: string)
    ensures Run(k, Collapse(j, s)) == Run(k, s)
    decreases |s|
  {
    if s == "" || s[0] == '/' {
    } else {
      assert Collapse(j, s)[1..] == Collapse(j, s[1..]);
      RunThroughCollapse(k, j, s[1..]);
    }
  }

  lemma {:induction false} CollapseSettles(k: Class, s: string)
    ensures Settled(k, Collapse(k, s))
    decreases |s|
  {
    if s == "" {
    } else {
      var n := Run(k, s[1..]);
      if s[0] == '/' && n >= k.Min() {
        CollapseSettles(k, s[1 + n..]);
        SettledId(k, Collapse(k, s[1 + n..]));
      } else {
        CollapseSettles(k, s[1..]);
        RunThroughCollapse(k, k, s[1..]);
        SettledCons(k, s[0], Collapse(k, s[1..]));
      }
    }
  }

  lemma SettledTail(k: Class, s: string, n: nat)
    requires Settled(k, s) && n <= |s|
    ensures Settled(k, s[n..])
  {
    forall i | 0 <= i < |s[n..]| && s[n..][i] == '/' ensures Run(k, s[n..][i + 1..]) < k.Min() {
      assert s[n..][i + 1..] == s[n + i + 1..];
      assert s[n + i] == '/';
    }
  }

  /** The third pass keeps what the second one achieved. */
  lemma {:induction false} CollapseKeepsSettled(k: Class, j: Class, s: string)
    requires Settled(k, s)
    ensures Settled(k, Collapse(j, s))
    decreases |s|
  {
    if s == "" {
    } else {
      var n := Run(j, s[1..]);
      if s[0] == '/' && n >= j.Min() {
        SettledTail(k, s, 1 + n);
        CollapseKeepsSettled(k, j, s[1 + n..]);
        SettledId(k, Collapse(j, s[1 + n..]));
      } else {
        SettledTail(k, s, 1);
        CollapseKeepsSettled(k, j, s[1..]);
        RunThroughCollapse(k, j, s[1..]);
        SettledCons(k, s[0], Collapse(j, s[1..]));
      }
    }
  }

  predicate DigitAfterSlash(s: string) {
    exists i :: 0 <= i < |s| - 1 && s[i] == '/' && IsDigit(s[i + 1])
  }

  predicate SixteenAfterSlash(s: string) {
    exists i :: 0 <= i < |s| - 16 && s[i] == '/' && SixteenFrom(s, i + 1)
  }

  predicate SixteenFrom(s: string, from: nat)
    requires from + 16 <= |s|
  {
    forall j | from <= j < from + 16 :: IsTokenChar(s[j])
  }

  lemma {:induction false} LongRunMeans(k: Class, s: string, from: nat, n: nat)
    requires from <= |s|
    ensures Run(k, s[from..]) >= n <==> from + n <= |s| && forall j | from <= j < from + n :: k.Has(s[j])
  {
    var r := Run(k, s[from..]);
    RunMembers(k, s[from..]);
    assert forall j | from <= j < from + r :: s[j] == s[from..][j - from];
    if r < |s[from..]| { assert s[from..][r] == s[from + r]; }
  }

  lemma SettledMeans(s: string)
    ensures Settled(Integer, s) <==> !DigitAfterSlash(s)
    ensures Settled(LongToken, s) <==> !SixteenAfterSlash(s)
  {
    forall i | 0 <= i < |s| && s[i] == '/'
      ensures Run(Integer, s[i + 1..]) >= 1 <==> i < |s| - 1 && IsDigit(s[i + 1])
      ensures Run(LongToken, s[i + 1..]) >= 16 <==> i < |s| - 16 && SixteenFrom(s, i + 1)
    {
      LongRunMeans(Integer, s, i + 1, 1);
      LongRunMeans(LongToken, s, i + 1, 16);
    }
  }

  /** In the label no slash is followed by a digit, nor by sixteen token characters. */
  lemma LabelIsSettled(path: string)
    ensures Settled(Integer, NormalizeRoute(path)) && Settled(LongToken, NormalizeRoute(path))
    ensures !DigitAfterSlash(NormalizeRoute(path)) && !SixteenAfterSlash(NormalizeRoute(path))
  {
    SettledMeans(NormalizeRoute(path));
    var s := ReplaceUuids(Base(path));
    CollapseSettles(LongToken, s);
    CollapseSettles(Integer, Collapse(LongToken, s));
    CollapseKeepsSettled(LongToken, Integer, Collapse(LongToken, s));
  }

  // ---------------------------------------------------------------- idempotence

  lemma {:induction false} SettledIsFixed(k: Class, s: string)
    requires Settled(k, s)
    ensures Collapse(k, s) == s
    decreases |s|
  {
    if s == "" {
    } else {
      SettledTail(k, s, 1);
      SettledIsFixed(k, s[1..]);
      assert s[0 + 1..] == s[1..];
    }
  }

  /** The second and third pass together are idempotent. */
  lemma CollapseBothIsIdempotent(s: string)
    ensures CollapseBoth(CollapseBoth(s)) == CollapseBoth(s)
  {
    var t := Collapse(LongToken, s);
    CollapseSettles(LongToken, s);
    CollapseSettles(Integer, t);
    CollapseKeepsSettled(LongToken, Integer, t);
    SettledIsFixed(LongToken, CollapseBoth(s));
    SettledIsFixed(Integer, CollapseBoth(s));
  }

  predicate HasUuid(s: string) {
    exists i :: 0 <= i <= |s| && StartsWithUuid(s[i..])
  }

  lemma {:induction false} UuidFreeIsFixed(s: string)
    ensures if HasUuid(s) then Count('-', ReplaceUuids(s)) < Count('-', s) else ReplaceUuids(s) == s
    decreases |s|
  {
    assert s[0..] == s;
    if s == "" {
    } else {
      if StartsWithUuid(s) {
        UuidsKeepSlashes(s[36..]);
        UuidCounts(s);
      } else {
        UuidFreeIsFixed(s[1..]);
        forall i | 0 <= i < |s| ensures s[1..][i..] == s[i + 1..] {}
        if HasUuid(s) {
          var i :| 0 <= i <= |s| && StartsWithUuid(s[i..]);
          assert StartsWithUuid(s[1..][i - 1..]);
        }
      }
    }
  }

  lemma {:induction false} CollapseDropsNoQuery(k: Class, s: string)
    requires '?' !in s
    ensures '?' !in Collapse(k, s)
    decreases |s|
  {
    if s == "" {
    } else {
      var n := Run(k, s[1..]);
      assert forall c | c in s[1 + n..] :: c in s;
      assert forall c | c in s[1..] :: c in s;
      CollapseDropsNoQuery(k, s[1 + n..]);
      CollapseDropsNoQuery(k, s[1..]);
    }
  }

  lemma {:induction false} UuidsDropNoQuery(s: string)
    requires '?' !in s
    ensures '?' !in ReplaceUuids(s)
    decreases |s|
  {
    if s == "" {
    } else {
      assert forall c | c in s[1..] :: c in s;
      UuidsDropNoQuery(s[1..]);
      if StartsWithUuid(s) {
        assert forall c | c in s[36..] :: c in s;
        UuidsDropNoQuery(s[36..]);
      }
    }
  }

  lemma {:induction false} BaseHasNoQuery(path: string)
    ensures '?' !in Base(path)
    ensures '?' !in path ==> Base(path) == path
  {
    if path == "" {
    } else {
      assert forall c | c in path[1..] :: c in path;
      BaseHasNoQuery(path[1..]);
    }
  }

  /** Normalising a label again changes it exactly when the first time left a UUID in it. */
  lemma IdempotentUnlessAUuidIsLeft(path: string)
    ensures NormalizeRoute(NormalizeRoute(path)) == NormalizeRoute(path) <==> !HasUuid(NormalizeRoute(path))
  {
    var answer := NormalizeRoute(path);
    BaseHasNoQuery(path);
    UuidsDropNoQuery(Base(path));
    CollapseDropsNoQuery(LongToken, ReplaceUuids(Base(path)));
    CollapseDropsNoQuery(Integer, Collapse(LongToken, ReplaceUuids(Base(path))));
    BaseHasNoQuery(answer);
    UuidFreeIsFixed(answer);
    LabelIsSettled(path);
    SettledIsFixed(LongToken, answer);
    SettledIsFixed(Integer, answer);
    CollapseKeepsSlashes(LongToken, ReplaceUuids(answer));
    CollapseKeepsSlashes(Integer, Collapse(LongToken, ReplaceUuids(answer)));
  }

  // ---------------------------------------------------------------- which paths leave a UUID behind

  /** Text that completes a UUID begun by the "d" of an inserted ":id", and in which no match begins before that. */
  predicate CompletesUuid(c: char, rest: string) {
    StartsWithUuid([c] + rest) && forall k | 0 <= k < 35 :: !StartsWithUuid(rest[k..])
  }

  /** Some UUID of `s` is replaced right before text that completes another one. */
  predicate LeavesUuid(s: string)
    decreases |s|
  {
    s != "" && if StartsWithUuid(s) then CompletesUuid('d', s[36..]) || LeavesUuid(s[36..]) else LeavesUuid(s[1..])
  }

  /** Until the first match the first pass copies. */
  lemma {:induction false} CopiesUpToAMatch(s: string, n: nat)
    requires n <= |s| && forall k | 0 <= k < n :: !StartsWithUuid(s[k..])
    ensures ReplaceUuids(s) == s[..n] + ReplaceUuids(s[n..])
    decreases n
  {
    if n == 0 {
      assert s[0..] == s;
    } else {
      assert s[0..] == s;
      forall k | 0 <= k < n - 1 ensures !StartsWithUuid(s[1..][k..]) {
        assert s[1..][k..] == s[k + 1..];
      }
      CopiesUpToAMatch(s[1..], n - 1);
      assert s[1..][n - 1..] == s[n..];
      assert s[..n] == [s[0]] + s[1..][..n - 1];
    }
  }

  /** The first match before position `n`, if there is one. */
  lemma {:induction false} FirstMatch(s: string, n: nat) returns (m: nat)
    requires n <= |s|
    ensures m <= n && forall k | 0 <= k < m :: !StartsWithUuid(s[k..])
    ensures m < n ==> StartsWithUuid(s[m..])
  {
    m := 0;
    while m < n && !StartsWithUuid(s[m..])
      invariant m <= n && forall k | 0 <= k < m :: !StartsWithUuid(s[k..])
    {
      m := m + 1;
    }
  }

  lemma SameFront(s: string, t: string)
    requires |s| >= 36 && |t| >= 36 && s[..36] == t[..36]
    ensures StartsWithUuid(s) <==> StartsWithUuid(t)
  {
    assert forall i | 0 <= i < 36 :: s[i] == s[..36][i] == t[..36][i] == t[i];
  }

  lemma NoUuidHere(c: char, s: string)
    requires !IsHex(c)
    ensures !StartsWithUuid([c] + s)
  {
    assert ([c] + s)[0] == c;
  }

  /** Behind a character, the first pass leaves a UUID exactly where nothing in the rest of it is a match. */
  lemma {:induction false} UuidAcrossTheFront(c: char, s: string)
    ensures StartsWithUuid([c] + ReplaceUuids(s)) <==> CompletesUuid(c, s)
  {
    var r := ReplaceUuids(s);
    var n := if |s| < 35 then |s| else 35;
    var m := FirstMatch(s, n);
    CopiesUpToAMatch(s, m);
    if m < n {
      assert r[m] == ':' && ([c] + r)[m + 1] == ':';
    } else if n < 35 {
      assert s[n..] == "" && r == s;
    } else {
      SameFront([c] + r, [c] + s);
    }
  }

  lemma HasUuidCons(c: char, s: string)
    ensures HasUuid([c] + s) <==> StartsWithUuid([c] + s) || HasUuid(s)
  {
    var t := [c] + s;
    assert t[0..] == t;
    forall i | 0 <= i <= |s| ensures t[i + 1..] == s[i..] {}
    if HasUuid(s) {
      var i :| 0 <= i <= |s| && StartsWithUuid(s[i..]);
      assert StartsWithUuid(t[i + 1..]);
    }
    if HasUuid(t) {
      var i :| 0 <= i <= |t| && StartsWithUuid(t[i..]);
      assert i > 0 ==> StartsWithUuid(s[i - 1..]);
    }
  }

  lemma HasUuidId(s: string)
    ensures HasUuid(":id" + s) <==> StartsWithUuid(['d'] + s) || HasUuid(s)
  {
    HasUuidCons('d', s);
    HasUuidCons('i', ['d'] + s);
    HasUuidCons(':', ['i'] + (['d'] + s));
    assert [':'] + (['i'] + (['d'] + s)) == ":id" + s;
    NoUuidHere('i', ['d'] + s);
    NoUuidHere(':', ['i'] + (['d'] + s));
  }

  /** After the first pass there is a UUID exactly when the path says so. */
  lemma {:induction false} FirstPassLeavesUuid(s: string)
    ensures HasUuid(ReplaceUuids(s)) <==> LeavesUuid(s)
    decreases |s|
  {
    if s == "" {
      assert !HasUuid("");
    } else if StartsWithUuid(s) {
      FirstPassLeavesUuid(s[36..]);
      HasUuidId(ReplaceUuids(s[36..]));
      UuidAcrossTheFront('d', s[36..]);
    } else {
      FirstPassLeavesUuid(s[1..]);
      HasUuidCons(s[0], ReplaceUuids(s[1..]));
      UuidAcrossTheFront(s[0], s[1..]);
      assert s == [s[0]] + s[1..];
    }
  }

  /** A UUID that the first pass leaves stands right after an inserted ":i". */
  lemma {:induction false} LeftUuidsFollowAnId(s: string, i: nat)
    requires i <= |ReplaceUuids(s)| && StartsWithUuid(ReplaceUuids(s)[i..])
    ensures i >= 2 && ReplaceUuids(s)[i - 1] == 'i' && ReplaceUuids(s)[i - 2] == ':'
    decreases |s|
  {
    var r := ReplaceUuids(s);
    assert r[0..] == r;
    if s == "" {
      assert false;
    } else if StartsWithUuid(s) {
      var rest := ReplaceUuids(s[36..]);
      assert r[i..][0] == r[i];
      if i > 2 {
        assert r[i..] == rest[i - 3..];
        LeftUuidsFollowAnId(s[36..], i - 3);
      }
    } else {
      var rest := ReplaceUuids(s[1..]);
      assert s == [s[0]] + s[1..];
      UuidAcrossTheFront(s[0], s[1..]);
      if i > 0 {
        assert r[i..] == rest[i - 1..];
        LeftUuidsFollowAnId(s[1..], i - 1);
      }
    }
  }

  /** The replacement after the slash at `i` takes no UUID away, and its "d" begins none. */
  predicate ShelteredAt(k: Class, s: string, i: nat)
    requires i < |s|
  {
    var end := i + 1 + Run(k, s[i + 1..]);
    !StartsWithUuid(['d'] + s[end..]) && forall j | i < j < end :: !StartsWithUuid(s[j..])
  }

  predicate Sheltered(k: Class, s: string) {
    forall i | 0 <= i < |s| && s[i] == '/' && Run(k, s[i + 1..]) >= k.Min() :: ShelteredAt(k, s, i)
  }

  lemma ShelteredAtTail(k: Class, s: string, n: nat, i: nat)
    requires n + i < |s| && ShelteredAt(k, s, n + i)
    ensures ShelteredAt(k, s[n..], i)
  {
    var t := s[n..];
    assert t[i + 1..] == s[n + i + 1..];
    var end := i + 1 + Run(k, t[i + 1..]);
    assert t[end..] == s[n + end..];
    forall j | i < j < end ensures !StartsWithUuid(t[j..]) {
      assert t[j..] == s[n + j..];
    }
  }

  lemma ShelteredTail(k: Class, s: string, n: nat)
    requires Sheltered(k, s) && n <= |s|
    ensures Sheltered(k, s[n..])
  {
    var t := s[n..];
    forall i | 0 <= i < |t| && t[i] == '/' && Run(k, t[i + 1..]) >= k.Min() ensures ShelteredAt(k, t, i) {
      assert t[i + 1..] == s[n + i + 1..] && s[n + i] == '/';
      ShelteredAtTail(k, s, n, i);
    }
  }

  /** Up to the first slash the pass copies, and it makes no slash where none was. */
  lemma {:induction false} CopiesUpToASlash(k: Class, s: string, n: nat)
    ensures n <= |s| && '/' !in s[..n] <==> n <= |Collapse(k, s)| && '/' !in Collapse(k, s)[..n]
    ensures n <= |s| && '/' !in s[..n] ==> Collapse(k, s)[..n] == s[..n]
    decreases n
  {
    var r := Collapse(k, s);
    if n == 0 || s == "" {
    } else if s[0] == '/' {
      assert n <= |s| ==> s[..n][0] == '/';
      assert n <= |r| ==> r[..n][0] == '/';
    } else {
      CopiesUpToASlash(k, s[1..], n - 1);
      assert n <= |s| ==> s[..n] == [s[0]] + s[1..][..n - 1];
      assert n <= |r| ==> r[..n] == [s[0]] + Collapse(k, s[1..])[..n - 1];
    }
  }

  lemma {:induction false} UuidAcrossASlash(k: Class, c: char, s: string)
    ensures StartsWithUuid([c] + Collapse(k, s)) <==> StartsWithUuid([c] + s)
  {
    var r := Collapse(k, s);
    CopiesUpToASlash(k, s, 35);
    if StartsWithUuid([c] + s) { UuidHasNoSlash(c, s); }
    if StartsWithUuid([c] + r) { UuidHasNoSlash(c, r); }
    if |s| >= 35 && '/' !in s[..35] {
      assert forall i | 0 <= i < 35 :: r[i] == r[..35][i] == s[..35][i] == s[i];
      assert forall i | 0 <= i < 36 :: ([c] + r)[i] == ([c] + s)[i];
    }
  }

  lemma UuidHasNoSlash(c: char, s: string)
    requires StartsWithUuid([c] + s)
    ensures |s| >= 35 && '/' !in s[..35]
  {
    forall i | 0 <= i < 35 ensures s[i] != '/' {
      assert ([c] + s)[i + 1] == s[i];
    }
  }

  lemma {:induction false} HasUuidBehind(s: string, n: nat)
    requires n <= |s| && forall j | 0 <= j < n :: !StartsWithUuid(s[j..])
    ensures HasUuid(s) <==> HasUuid(s[n..])
  {
    forall i | n <= i <= |s| ensures s[n..][i - n..] == s[i..] {}
    if HasUuid(s) {
      var i :| 0 <= i <= |s| && StartsWithUuid(s[i..]);
      assert StartsWithUuid(s[n..][i - n..]);
    }
    if HasUuid(s[n..]) {
      var i :| 0 <= i <= |s[n..]| && StartsWithUuid(s[n..][i..]);
      assert s[n..][i..] == s[n + i..];
    }
  }

  lemma ReplacingKeepsUuids(k: Class, s: string)
    requires s != "" && s[0] == '/' && ShelteredAt(k, s, 0)
    ensures var end := 1 + Run(k, s[1..]); HasUuid("/:id" + Collapse(k, s[end..])) <==> HasUuid(Collapse(k, s[end..]))
    ensures HasUuid(s) <==> HasUuid(s[1 + Run(k, s[1..])..])
  {
    hide StartsWithUuid, HasUuid, Run, Collapse;
    var end := 1 + Run(k, s[1..]);
    var rest := Collapse(k, s[end..]);
    UuidAcrossASlash(k, 'd', s[end..]);
    assert "/:id" + rest == ['/'] + (":id" + rest);
    NoUuidHere('/', ":id" + rest);
    HasUuidCons('/', ":id" + rest);
    HasUuidId(rest);
    NoUuidHere('/', s[1..]);
    assert s == ['/'] + s[1..] && s[0..] == s;
    HasUuidBehind(s, end);
  }

  lemma CopyingKeepsUuids(k: Class, c: char, s: string)
    requires HasUuid(Collapse(k, s)) <==> HasUuid(s)
    ensures HasUuid([c] + Collapse(k, s)) <==> HasUuid([c] + s)
  {
    hide StartsWithUuid, HasUuid, Run, Collapse;
    UuidAcrossASlash(k, c, s);
    HasUuidCons(c, s);
    HasUuidCons(c, Collapse(k, s));
  }

  /** A pass over a sheltered text neither makes a UUID nor destroys one. */
  lemma {:induction false} CollapseKeepsUuids(k: Class, s: string)
    requires Sheltered(k, s)
    ensures HasUuid(Collapse(k, s)) <==> HasUuid(s)
    decreases |s|
  {
    hide StartsWithUuid, HasUuid, Run;
    if s == "" {
    } else if s[0] == '/' && Run(k, s[1..]) >= k.Min() {
      var end := 1 + Run(k, s[1..]);
      ShelteredTail(k, s, end);
      CollapseKeepsUuids(k, s[end..]);
      ReplacingKeepsUuids(k, s);
    } else {
      ShelteredTail(k, s, 1);
      CollapseKeepsUuids(k, s[1..]);
      CopyingKeepsUuids(k, s[0], s[1..]);
      assert s == [s[0]] + s[1..];
    }
  }

  lemma UuidIsToken(s: string, i: nat)
    requires i < 36 && StartsWithUuid(s)
    ensures IsTokenChar(s[i])
  {
  }

  /** What the first pass leaves is sheltered from the second: a run of token characters never reaches across ':'. */
  lemma {:induction false} FirstPassShelters(s: string)
    ensures Sheltered(LongToken, ReplaceUuids(s))
  {
    var r := ReplaceUuids(s);
    forall i | 0 <= i < |r| && r[i] == '/' && Run(LongToken, r[i + 1..]) >= LongToken.Min()
      ensures ShelteredAt(LongToken, r, i)
    {
      FirstPassSheltersAt(s, i);
    }
  }

  lemma FirstPassSheltersAt(s: string, i: nat)
    requires i < |ReplaceUuids(s)| && ReplaceUuids(s)[i] == '/'
    ensures ShelteredAt(LongToken, ReplaceUuids(s), i)
  {
    hide StartsWithUuid, ReplaceUuids, Run;
    var r := ReplaceUuids(s);
    RunIsGreedy(LongToken, r, i);
    var end := i + 1 + Run(LongToken, r[i + 1..]);
    forall j | i < j < end ensures !StartsWithUuid(r[j..]) {
      if StartsWithUuid(r[j..]) {
        LeftUuidsFollowAnId(s, j);
        assert false;
      }
    }
  }

  /** Characters of the class up to the end of the run, and no UUID continues behind it. */
  lemma RunIsGreedy(k: Class, s: string, i: nat)
    requires i < |s|
    ensures var end := i + 1 + Run(k, s[i + 1..]);
            && (forall j | i < j < end :: k.Has(s[j]))
            && (k.LongToken? ==> !StartsWithUuid(['d'] + s[end..]))
  {
    var n := Run(k, s[i + 1..]);
    RunMembers(k, s[i + 1..]);
    assert forall j | i < j < i + 1 + n :: s[j] == s[i + 1..][j - i - 1];
    var end := i + 1 + n;
    if k.LongToken? && StartsWithUuid(['d'] + s[end..]) {
      assert (['d'] + s[end..])[1] == s[end] == s[i + 1..][n];
      UuidIsToken(['d'] + s[end..], 1);
      assert false;
    }
  }

  lemma TokenCharsFollow(s: string, from: nat)
    requires from <= |s| && (StartsWithUuid(s[from..]) || StartsWithUuid(['d'] + s[from..]))
    ensures from + 16 <= |s| && forall j | from <= j < from + 16 :: IsTokenChar(s[j])
  {
    var rest := s[from..];
    forall j | from <= j < from + 16 ensures IsTokenChar(s[j]) {
      assert s[j] == rest[j - from];
      if StartsWithUuid(rest) {
        UuidIsToken(rest, j - from);
      } else {
        assert (['d'] + rest)[j - from + 1] == rest[j - from];
        UuidIsToken(['d'] + rest, j - from + 1);
      }
    }
  }

  /** Where no long token follows a slash, neither does a number with a UUID in it or behind it. */
  lemma {:induction false} SecondPassShelters(s: string)
    requires Settled(LongToken, s)
    ensures Sheltered(Integer, s)
  {
    forall i | 0 <= i < |s| && s[i] == '/' && Run(Integer, s[i + 1..]) >= Integer.Min()
      ensures ShelteredAt(Integer, s, i)
    {
      SecondPassSheltersAt(s, i);
    }
  }

  lemma SecondPassSheltersAt(s: string, i: nat)
    requires i < |s| && Run(LongToken, s[i + 1..]) < 16
    ensures ShelteredAt(Integer, s, i)
  {
    hide StartsWithUuid;
    RunIsGreedy(Integer, s, i);
    LongRunMeans(LongToken, s, i + 1, 16);
    var end := i + 1 + Run(Integer, s[i + 1..]);
    if StartsWithUuid(['d'] + s[end..]) {
      TokenCharsFollow(s, end);
      assert false;
    }
    forall j | i < j < end ensures !StartsWithUuid(s[j..]) {
      if StartsWithUuid(s[j..]) {
        TokenCharsFollow(s, j);
        assert false;
      }
    }
  }

  /** Whether a UUID is left in the label can be told from the path. */
  lemma LabelHasUuidExactly(path: string)
    ensures HasUuid(NormalizeRoute(path)) <==> LeavesUuid(Base(path))
  {
    var r := ReplaceUuids(Base(path));
    FirstPassLeavesUuid(Base(path));
    FirstPassShelters(Base(path));
    CollapseKeepsUuids(LongToken, r);
    CollapseSettles(LongToken, r);
    SecondPassShelters(Collapse(LongToken, r));
    CollapseKeepsUuids(Integer, Collapse(LongToken, r));
  }

  /**
   Normalising twice is normalising once exactly when, in the part of the path before '?', no UUID that the first
   pass replaces is directly followed by text that its "d" completes to another one.
   */
  lemma IdempotentExactly(path: string)
    ensures NormalizeRoute(NormalizeRoute(path)) == NormalizeRoute(path) <==> !LeavesUuid(Base(path))
  {
    IdempotentUnlessAUuidIsLeft(path);
    LabelHasUuidExactly(path);
  }

  /** A path without query keeps its name exactly when it holds no UUID, no number and no long token. */
  lemma OnlyIdsAreReplaced(path: string)
    ensures NormalizeRoute(path) == Base(path)
            <==> !HasUuid(Base(path)) && !DigitAfterSlash(Base(path)) && !SixteenAfterSlash(Base(path))
  {
    var base := Base(path);
    UuidFreeIsFixed(base);
    SettledMeans(base);
    if NormalizeRoute(path) == base {
      LabelIsSettled(path);
      CollapseKeepsSlashes(LongToken, ReplaceUuids(base));
      CollapseKeepsSlashes(Integer, Collapse(LongToken, ReplaceUuids(base)));
    } else if !HasUuid(base) && !DigitAfterSlash(base) && !SixteenAfterSlash(base) {
      SettledIsFixed(LongToken, base);
      SettledIsFixed(Integer, base);
    }
  }

  lemma TailCharacters(s: string)
    requires |s| == 36 && StartsWithUuid(s)
    ensures '?' !in s && '/' !in s && '?' !in s[1..] && '/' !in s[1..]
  {
    assert forall i | 0 <= i < 36 :: s[i] != '?' && s[i] != '/';
  }

  lemma {:induction false} SlashFreeIsFixed(s: string)
    requires '/' !in s
    ensures CollapseBoth(s) == s
  {
    SettledIsFixed(LongToken, s);
    SettledIsFixed(Integer, s);
  }

  lemma {:induction false} FirstPassOnAdjoined(uuid: string, tail: string)
    requires |uuid| == 36 && StartsWithUuid(uuid) && |tail| < 36
    ensures ReplaceUuids(uuid + tail) == ":id" + tail
  {
    var path := uuid + tail;
    assert path[36..] == tail && path[..36] == uuid;
    assert StartsWithUuid(path) by {
      assert forall i | 0 <= i < 36 :: path[i] == uuid[i];
    }
    UuidFreeIsFixed(tail);
  }

  lemma {:induction false} PlainPath(path: string)
    requires '?' !in path && '/' !in ReplaceUuids(path)
    ensures NormalizeRoute(path) == ReplaceUuids(path)
  {
    BaseHasNoQuery(path);
    SlashFreeIsFixed(ReplaceUuids(path));
  }

  /** The "d" of an inserted ":id" is a hex digit: with the right text behind it, it begins another UUID. */
  lemma {:induction false} LeftOverUuid(uuid: string, tail: string)
    requires |uuid| == 36 && StartsWithUuid(uuid) && |tail| == 35 && StartsWithUuid(['d'] + tail)
    ensures NormalizeRoute(NormalizeRoute(uuid + tail)) != NormalizeRoute(uuid + tail)
  {
    TailCharacters(uuid);
    TailCharacters(['d'] + tail);
    assert (['d'] + tail)[1..] == tail;
    FirstPassOnAdjoined(uuid, tail);
    PlainPath(uuid + tail);
    assert HasUuid(":id" + tail) by { assert (":id" + tail)[2..] == ['d'] + tail; }
    IdempotentUnlessAUuidIsLeft(uuid + tail);
  }

  function ZeroUuid(): string {
    seq(36, i => if i in {8, 13, 18, 23} then '-' else '0')
  }

  /** So normalising is not idempotent on every path. */
  lemma NormalizingTwiceCanDiffer()
    ensures var path := ZeroUuid() + ZeroUuid()[1..];
            NormalizeRoute(NormalizeRoute(path)) != NormalizeRoute(path)
  {
    LeftOverUuid(ZeroUuid(), ZeroUuid()[1..]);
  }
}
