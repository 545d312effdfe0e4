/** String helpers the tools rely on: ASCII lower-casing, substring search,
    POSIX path joining, base names, extensions and decimal rendering. */
module Text {

  import opened Common

  /** Lower-cases one ASCII letter; every other character is unchanged. */
  function LowerChar(c: char): char {
    if 'A' <= c <= 'Z' then (c as int + 32) as char else c
  }

  function Lower(s: string): (r: string)
    ensures |r| == |s|
    ensures forall i :: 0 <= i < |s| ==> r[i] == LowerChar(s[i])
  {
    if s == [] then [] else [LowerChar(s[0])] + Lower(s[1..])
  }

  /** `sub in s` for Python strings. */
  predicate Contains(s: string, sub: string) {
    sub <= s || (|s| > 0 && Contains(s[1..], sub))
  }

  /** sub occurs in s starting at index i. */
  predicate OccursAt(s: string, sub: string, i: int) {
    0 <= i && i + |sub| <= |s| && s[i..i + |sub|] == sub
  }

  /** Substring search agrees with "sub occurs at some index of s", in both directions. */
  lemma {:induction false} ContainsIffOccurs(s: string, sub: string)
    ensures Contains(s, sub) <==> exists i :: OccursAt(s, sub, i)
  {
    if sub <= s {
      assert OccursAt(s, sub, 0);
    } else if |s| == 0 {
    } else {
      ContainsIffOccurs(s[1..], sub);
      if Contains(s[1..], sub) {
        var i :| OccursAt(s[1..], sub, i);
        assert s[1..][i..i + |sub|] == s[i + 1..i + 1 + |sub|];
        assert OccursAt(s, sub, i + 1);
      }
      if exists i :: OccursAt(s, sub, i) {
        var i :| OccursAt(s, sub, i);
        if i != 0 {
          assert s[1..][i - 1..i - 1 + |sub|] == s[i..i + |sub|];
          assert OccursAt(s[1..], sub, i - 1);
        }
      }
    }
  }

  /** os.path.join(a, b) (and pathlib's `/`) for two POSIX components: an absolute b
      replaces a; otherwise b is appended below a, separated from it by exactly one '/' that
      is added only when a is non-empty and does not already end in one. */
  function Join(a: string, b: string): (r: string)
    ensures |b| > 0 && b[0] == '/' ==> r == b
    ensures !(|b| > 0 && b[0] == '/') && a != [] && a[|a| - 1] != '/' ==> r == a + "/" + b
    ensures !(|b| > 0 && b[0] == '/') && (a == [] || a[|a| - 1] == '/') ==> r == a + b
  {
    if |b| > 0 && b[0] == '/' then b
    else if a == [] || a[|a| - 1] == '/' then a + b
    else a + "/" + b
  }

  /** Index of the last occurrence of c in s. */
  function LastIndexOf(s: string, c: char): (r: Option<nat>)
    ensures r.Some? ==> r.value < |s| && s[r.value] == c
    ensures r.Some? ==> forall j :: r.value < j < |s| ==> s[j] != c
    ensures r.None? ==> forall j :: 0 <= j < |s| ==> s[j] != c
  {
    if s == [] then None
    else if s[|s| - 1] == c then Some(|s| - 1)
    else LastIndexOf(s[..|s| - 1], c)
  }

  /** os.path.basename: the part after the last '/', or all of p when it has none. */
  function Basename(p: string): (r: string)
    ensures forall j :: 0 <= j < |r| ==> r[j] != '/'
    ensures |r| <= |p| && p[|p| - |r|..] == r
    ensures |r| == |p| || p[|p| - |r| - 1] == '/'
  {
    match LastIndexOf(p, '/')
    case None => p
    case Some(i) => p[i + 1..]
  }

  /** Basename inverts Join for a plain file name: joining a name with no '/' below any
      directory and taking the base name gives the name back. */
  lemma JoinBasename(dir: string, name: string)
    requires name != [] && forall j :: 0 <= j < |name| ==> name[j] != '/'
    ensures Basename(Join(dir, name)) == name
  {
    if dir == [] || dir[|dir| - 1] == '/' {
      BasenameAfterSlash(dir, name);
    } else {
      BasenameAfterSlash(dir + "/", name);
      assert dir + "/" + name == (dir + "/") + name;
    }
  }

  /** The base name of a path that ends in a plain name after a '/' (or is that name). */
  lemma BasenameAfterSlash(q: string, name: string)
    requires q == [] || q[|q| - 1] == '/'
    requires forall j :: 0 <= j < |name| ==> name[j] != '/'
    ensures Basename(q + name) == name
  {
    var p := q + name;
    assert forall k :: |q| <= k < |p| ==> p[k] == name[k - |q|];
    if q == [] {
      assert p == name;
      assert LastIndexOf(p, '/').None?;
    } else {
      assert p[|q| - 1] == '/';
      var i := LastIndexOf(p, '/').value;
      assert i == |q| - 1;
      assert p[i + 1..] == name;
    }
  }

  /** The extension os.path.splitext gives a base name: from the last '.', provided some
      character before that dot is not a dot (".bashrc" and "..x" have none). */
  function Extension(name: string): (r: string)
    ensures |r| <= |name|
    ensures r == [] || (r[0] == '.' && name[|name| - |r|..] == r)
    ensures forall j :: 0 < j < |r| ==> r[j] != '.'
  {
    match LastIndexOf(name, '.')
    case None => ""
    case Some(d) => if HasNonDot(name[..d]) then name[d..] else ""
  }

  predicate HasNonDot(s: string) {
    exists j :: 0 <= j < |s| && s[j] != '.'
  }

  /** A name has an extension exactly when one of its dots follows a character that is not a
      dot. */
  lemma ExtensionPresent(name: string)
    ensures Extension(name) != [] <==> exists i, j :: 0 <= j < i < |name| && name[j] != '.' && name[i] == '.'
  {
    if exists i, j :: 0 <= j < i < |name| && name[j] != '.' && name[i] == '.' {
      var i, j :| 0 <= j < i < |name| && name[j] != '.' && name[i] == '.';
      var d := LastIndexOf(name, '.').value;
      assert i <= d;
      assert name[..d][j] != '.';
    }
    if Extension(name) != [] {
      var d := LastIndexOf(name, '.').value;
      var j :| 0 <= j < d && name[..d][j] != '.';
      assert name[j] != '.' && name[d] == '.';
    }
  }

  function DigitChar(d: nat): char
    requires d < 10
  {
    ('0' as int + d) as char
  }

  /** The number a string of decimal digits denotes. */
  function DecimalValue(s: string): int {
    if s == [] then 0 else 10 * DecimalValue(s[..|s| - 1]) + (s[|s| - 1] as int - '0' as int)
  }

  /** Decimal rendering of a natural number, as Python's str() gives it. */
  function NatToString(n: nat): (r: string)
    ensures |r| > 0
    ensures forall j :: 0 <= j < |r| ==> '0' <= r[j] <= '9'
    decreases n
  {
    if n < 10 then [DigitChar(n)] else NatToString(n / 10) + [DigitChar(n % 10)]
  }

  /** The rendering reads back as the number, and has no leading zero unless it is "0". */
  lemma {:induction false} NatToStringValue(n: nat)
    ensures DecimalValue(NatToString(n)) == n
    ensures NatToString(n)[0] == '0' ==> n == 0
    decreases n
  {
    if n >= 10 {
      NatToStringValue(n / 10);
      var s := NatToString(n);
      assert s[..|s| - 1] == NatToString(n / 10);
      assert s[0] == NatToString(n / 10)[0];
    }
  }

  function IntToString(n: int): (r: string)
    ensures |r| > 0
  {
    if n < 0 then "-" + NatToString(-n) else NatToString(n)
  }
}
