/** Python string facts the models rely on: white space, stripping and code-point order. */
module Text {

  /** The characters str.isspace() accepts, which str.strip() removes. */
  predicate IsSpace(c: char) {
    var n := c as int;
    || 0x09 <= n <= 0x0D || 0x1C <= n <= 0x20 || n == 0x85 || n == 0xA0 || n == 0x1680 || 0x2000 <= n <= 0x200A
    || n == 0x2028 || n == 0x2029 || n == 0x202F || n == 0x205F || n == 0x3000
  }

  /** Non-empty after strip(). */
  predicate NonBlank(s: string) {
    exists i | 0 <= i < |s| :: !IsSpace(s[i])
  }

  function StripLeft(s: string): string {
    if s != [] && IsSpace(s[0]) then StripLeft(s[1..]) else s
  }

  function StripRight(s: string): string {
    if s != [] && IsSpace(s[|s| - 1]) then StripRight(s[..|s| - 1]) else s
  }

  function Strip(s: string): string {
    StripRight(StripLeft(s))
  }

  /** Nothing left to strip. */
  predicate Trimmed(s: string) {
    s == [] || (!IsSpace(s[0]) && !IsSpace(s[|s| - 1]))
  }

  lemma {:induction false} StripLeftFacts(s: string)
    ensures StripLeft(s) == [] || !IsSpace(StripLeft(s)[0])
    ensures NonBlank(s) <==> NonBlank(StripLeft(s))
    ensures NonBlank(s) <==> StripLeft(s) != []
  {
    if s != [] && IsSpace(s[0]) {
      StripLeftFacts(s[1..]);
      assert forall i | 0 < i < |s| :: s[i] == s[1..][i - 1];
    } else if s != [] {
      assert !IsSpace(s[0]);
    }
  }

  lemma {:induction false} StripRightFacts(s: string)
    ensures StripRight(s) == [] || !IsSpace(StripRight(s)[|StripRight(s)| - 1])
    ensures StripRight(s) <= s
    ensures NonBlank(s) <==> StripRight(s) != []
  {
    if s != [] && IsSpace(s[|s| - 1]) {
      StripRightFacts(s[..|s| - 1]);
    } else if s != [] {
      assert !IsSpace(s[|s| - 1]);
    }
  }

  ghost predicate AllSpace(s: string) {
    forall i | 0 <= i < |s| :: IsSpace(s[i])
  }

  lemma {:induction false} StripLeftCuts(s: string) returns (i: nat)
    ensures i <= |s| && AllSpace(s[..i]) && StripLeft(s) == s[i..]
  {
    if s != [] && IsSpace(s[0]) {
      var k := StripLeftCuts(s[1..]);
      i := k + 1;
      assert s[..i] == [s[0]] + s[1..][..k] && s[1..][k..] == s[i..];
    } else {
      i := 0;
    }
  }

  lemma {:induction false} StripRightCuts(s: string) returns (j: nat)
    ensures j <= |s| && AllSpace(s[j..]) && StripRight(s) == s[..j]
  {
    if s != [] && IsSpace(s[|s| - 1]) {
      var n := |s| - 1;
      j := StripRightCuts(s[..n]);
      assert s[j..] == s[..n][j..] + [s[n]] && s[..n][..j] == s[..j];
    } else {
      j := |s|;
    }
  }

  /** What is stripped off is white space, what is left has none at its ends, and nothing inside it changes. */
  lemma StripTrims(s: string)
    ensures Trimmed(Strip(s))
    ensures NonBlank(s) <==> Strip(s) != []
    ensures exists i, j | 0 <= i <= j <= |s| :: Strip(s) == s[i..j] && AllSpace(s[..i]) && AllSpace(s[j..])
  {
    StripLeftFacts(s);
    StripRightFacts(StripLeft(s));
    var i := StripLeftCuts(s);
    var k := StripRightCuts(StripLeft(s));
    assert s[i..][k..] == s[i + k..] && s[i..][..k] == s[i..i + k];
  }

  lemma TrimmedIsFixed(s: string)
    requires Trimmed(s)
    ensures Strip(s) == s
    ensures NonBlank(s) <==> s != []
  {
  }

  // ----- letters -----

  /** upper() as far as it can produce one of the letters A, E, I, L, P, S and V. */
  function UpperChar(c: char): string {
    var n := c as int;
    if 'a' <= c <= 'z' then [(n - 32) as char]
    else if n == 0xDF then "SS"
    else if n == 0x131 then "I"
    else if n == 0x17F then "S"
    else if n == 0x1E9A then ['A', 0x2BE as char]
    else if n == 0xFB01 then "FI"
    else if n == 0xFB02 then "FL"
    else if n == 0xFB03 then "FFI"
    else if n == 0xFB04 then "FFL"
    else if n == 0xFB05 || n == 0xFB06 then "ST"
    else [c]
  }

  function Upper(s: string): string {
    if s == [] then [] else UpperChar(s[0]) + Upper(s[1..])
  }

  /** lower() as far as it can produce a hexadecimal digit. */
  function Lower(s: string): string {
    seq(|s|, i requires 0 <= i < |s| => if 'A' <= s[i] <= 'Z' then (s[i] as int + 32) as char else s[i])
  }

  predicate Contains(s: string, part: string) {
    exists i | 0 <= i <= |s| :: part <= s[i..]
  }

  // ----- code-point order -----

  predicate Le(a: string, b: string) {
    if a == [] then true
    else if b == [] then false
    else if a[0] != b[0] then a[0] < b[0]
    else Le(a[1..], b[1..])
  }

  /** Code-point order: a is a prefix of b, or smaller where they first differ. */
  lemma {:induction false} LeMeans(a: string, b: string)
    ensures Le(a, b) <==> a <= b || exists i | 0 <= i < |a| && i < |b| :: a[..i] == b[..i] && a[i] < b[i]
  {
    if a != [] && b != [] {
      if a[0] == b[0] {
        var c, d := a[1..], b[1..];
        LeMeans(c, d);
        assert a == [a[0]] + c && b == [b[0]] + d;
        if i: nat :| i < |c| && i < |d| && c[..i] == d[..i] && c[i] < d[i] {
          assert a[..i + 1] == [a[0]] + c[..i] && b[..i + 1] == [b[0]] + d[..i];
          assert a[i + 1] == c[i] && b[i + 1] == d[i];
        }
        if i: nat :| i < |a| && i < |b| && a[..i] == b[..i] && a[i] < b[i] {
          assert c[i - 1] == a[i] && d[i - 1] == b[i];
          assert c[..i - 1] == a[1..i] == a[..i][1..] && d[..i - 1] == b[1..i] == b[..i][1..];
        }
      } else {
        assert a[..0] == b[..0];
        if i: nat :| i < |a| && i < |b| && a[..i] == b[..i] && a[i] < b[i] {
          assert i > 0 ==> a[..i][0] == b[..i][0];
        }
      }
    }
  }

  lemma {:induction false} LeTotal(a: string, b: string)
    ensures Le(a, b) || Le(b, a)
    ensures Le(a, b) && Le(b, a) ==> a == b
  {
    if a != [] && b != [] && a[0] == b[0] {
      LeTotal(a[1..], b[1..]);
      assert a == [a[0]] + a[1..] && b == [b[0]] + b[1..];
    }
  }

  lemma {:induction false} LeTransitive(a: string, b: string, c: string)
    requires Le(a, b) && Le(b, c)
    ensures Le(a, c)
  {
    if a != [] && a[0] == b[0] == c[0] {
      LeTransitive(a[1..], b[1..], c[1..]);
    }
  }

  function MaxText(a: string, b: string): (m: string)
    ensures m == a || m == b
  {
    if Le(b, a) then a else b
  }

  // ----- sorted() -----

  function Insert(x: string, s: seq<string>): seq<string> {
    if s == [] || Le(x, s[0]) then [x] + s else [s[0]] + Insert(x, s[1..])
  }

  function Sorted(s: seq<string>): seq<string> {
    if s == [] then [] else Insert(s[0], Sorted(s[1..]))
  }

  ghost predicate Ascending(s: seq<string>) {
    forall i, j | 0 <= i < j < |s| :: Le(s[i], s[j])
  }

  lemma {:induction false} InsertElements(x: string, s: seq<string>)
    ensures multiset(Insert(x, s)) == multiset{x} + multiset(s)
  {
    if s != [] && !Le(x, s[0]) {
      assert s == [s[0]] + s[1..];
      InsertElements(x, s[1..]);
    }
  }

  lemma PrependAscends(x: string, s: seq<string>)
    requires Ascending(s) && (s != [] ==> Le(x, s[0]))
    ensures Ascending([x] + s)
  {
    forall i | 0 <= i < |s| ensures Le(x, s[i]) {
      if i > 0 {
        LeTransitive(x, s[0], s[i]);
      }
    }
  }

  lemma {:induction false} InsertAscends(x: string, s: seq<string>)
    requires Ascending(s)
    ensures Ascending(Insert(x, s))
  {
    if s == [] || Le(x, s[0]) {
      PrependAscends(x, s);
    } else {
      LeTotal(x, s[0]);
      InsertAscends(x, s[1..]);
      PrependAscends(s[0], Insert(x, s[1..]));
    }
  }

  lemma {:induction false} SortedFacts(s: seq<string>)
    ensures multiset(Sorted(s)) == multiset(s)
    ensures Ascending(Sorted(s))
    ensures |Sorted(s)| == |s|
  {
    if s != [] {
      SortedFacts(s[1..]);
      InsertElements(s[0], Sorted(s[1..]));
      InsertAscends(s[0], Sorted(s[1..]));
      assert s == [s[0]] + s[1..];
    }
    assert |multiset(Sorted(s))| == |Sorted(s)| && |multiset(s)| == |s|;
  }

  lemma HeadIsLeast(a: seq<string>, x: string)
    requires Ascending(a) && x in a
    ensures Le(a[0], x)
  {
    var i :| 0 <= i < |a| && a[i] == x;
    if i == 0 {
      LeTotal(x, x);
    }
  }

  lemma SameElements(a: seq<string>, b: seq<string>, x: string)
    requires multiset(a) == multiset(b) && x in a
    ensures x in b
  {
    assert x in multiset(a);
    assert x in multiset(b);
  }

  lemma HeadsAgree(a: seq<string>, b: seq<string>)
    requires Ascending(a) && Ascending(b) && multiset(a) == multiset(b) && a != [] && b != []
    ensures a[0] == b[0]
  {
    SameElements(a, b, a[0]);
    SameElements(b, a, b[0]);
    HeadIsLeast(a, b[0]);
    HeadIsLeast(b, a[0]);
    LeTotal(a[0], b[0]);
  }

  lemma TailElements(a: seq<string>)
    requires a != []
    ensures multiset(a[1..]) == multiset(a) - multiset{a[0]}
  {
    assert a == [a[0]] + a[1..];
  }

  /** Two ascending lists of the same elements are the same list. */
  lemma {:induction false} AscendingIsUnique(a: seq<string>, b: seq<string>)
    requires Ascending(a) && Ascending(b) && multiset(a) == multiset(b)
    ensures a == b
  {
    assert |a| == |multiset(a)| == |multiset(b)| == |b|;
    if a != [] {
      HeadsAgree(a, b);
      TailElements(a);
      TailElements(b);
      AscendingIsUnique(a[1..], b[1..]);
      assert a == [a[0]] + a[1..] && b == [b[0]] + b[1..];
    }
  }

  /** sorted() forgets the order it was given. */
  lemma SortedIgnoresOrder(a: seq<string>, b: seq<string>)
    requires multiset(a) == multiset(b)
    ensures Sorted(a) == Sorted(b)
  {
    SortedFacts(a);
    SortedFacts(b);
    AscendingIsUnique(Sorted(a), Sorted(b));
  }
}
