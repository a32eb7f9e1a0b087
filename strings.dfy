/** The few `java.lang.String` and `java.net.URLEncoder` operations the core
    relies on, with their Java edge cases: `split` on a one-character
    separator drops trailing empty strings, `trim` strips every character up
    to U+0020, `lastIndexOf` answers -1 when absent, and `URLEncoder.encode`
    percent-encodes the UTF-8 bytes of everything but letters, digits and
    `.-*_`, with a space becoming `+`. */
module JavaStrings {

  predicate StartsWith(s: string, prefix: string) {
    |prefix| <= |s| && s[..|prefix|] == prefix
  }

  /** `s.replace(target, replacement)`: every occurrence, left to right,
      without overlaps. */
  function Replace(s: string, target: string, replacement: string): (r: string)
    requires target != ""
    decreases |s|
  {
    if |s| < |target| then s
    else if s[..|target|] == target then replacement + Replace(s[|target|..], target, replacement)
    else [s[0]] + Replace(s[1..], target, replacement)
  }

  /** A string without the target's last character comes back unchanged. */
  lemma {:induction false} ReplaceAbsent(s: string, target: string, replacement: string)
    requires target != "" && target[|target| - 1] !in s
    ensures Replace(s, target, replacement) == s
    decreases |s|
  {
    if |s| >= |target| {
      assert s[..|target|][|target| - 1] == s[|target| - 1];
      ReplaceAbsent(s[1..], target, replacement);
      assert s == [s[0]] + s[1..];
    }
  }

  /** `toUpperCase()` on the ASCII letters. */
  function UpperChar(c: char): (u: char)
    ensures 'a' <= c <= 'z' ==> u as int == c as int - 32
    ensures !('a' <= c <= 'z') ==> u == c
  {
    if 'a' <= c <= 'z' then (c as int - 32) as char else c
  }

  function ToUpper(s: string): (r: string)
    ensures |r| == |s|
    ensures forall i :: 0 <= i < |s| ==> r[i] == UpperChar(s[i])
  {
    seq(|s|, i requires 0 <= i < |s| => UpperChar(s[i]))
  }

  /** Upper case is left alone. */
  lemma ToUpperOfUpper(s: string)
    requires forall i :: 0 <= i < |s| ==> !('a' <= s[i] <= 'z')
    ensures ToUpper(s) == s
  {
  }

  /** `s.lastIndexOf(c)`. */
  function LastIndexOf(s: string, c: char): (i: int)
    ensures -1 <= i < |s|
    ensures i == -1 <==> c !in s
    ensures i >= 0 ==> s[i] == c && c !in s[i + 1..]
  {
    if s == [] then -1
    else if s[|s| - 1] == c then |s| - 1
    else
      var k := LastIndexOf(s[..|s| - 1], c);
      assert s[..|s| - 1][k + 1..] + [s[|s| - 1]] == s[k + 1..];
      k
  }

  /** The strings between the occurrences of `c`, empty ones included. */
  function Pieces(s: string, c: char): (r: seq<string>)
    ensures |r| >= 1
    ensures forall i :: 0 <= i < |r| ==> c !in r[i]
  {
    if s == [] then [""]
    else if s[0] == c then [""] + Pieces(s[1..], c)
    else var rest := Pieces(s[1..], c); [[s[0]] + rest[0]] + rest[1..]
  }

  function Join(parts: seq<string>, c: char): string {
    if |parts| == 0 then ""
    else if |parts| == 1 then parts[0]
    else parts[0] + [c] + Join(parts[1..], c)
  }

  lemma JoinCons(x: char, parts: seq<string>, c: char)
    requires |parts| >= 1
    ensures Join([[x] + parts[0]] + parts[1..], c) == [x] + Join(parts, c)
  {
    var q := [[x] + parts[0]] + parts[1..];
    assert q[1..] == parts[1..];
  }

  /** Joining the pieces with the separator gives back the string. */
  lemma {:induction false} JoinPieces(s: string, c: char)
    ensures Join(Pieces(s, c), c) == s
  {
    if s != [] {
      var rest := Pieces(s[1..], c);
      JoinPieces(s[1..], c);
      if s[0] == c {
        assert ([""] + rest)[1..] == rest;
      } else {
        JoinCons(s[0], rest, c);
      }
      assert s == [s[0]] + s[1..];
    }
  }

  /** A separator between two strings separates their pieces. */
  lemma {:induction false} PiecesAppend(a: string, c: char, b: string)
    ensures Pieces(a + [c] + b, c) == Pieces(a, c) + Pieces(b, c)
  {
    var s := a + [c] + b;
    if a == [] {
      assert s == [c] + b && s[1..] == b;
    } else {
      assert s[0] == a[0] && s[1..] == a[1..] + [c] + b;
      PiecesAppend(a[1..], c, b);
      if a[0] != c {
        var ra, rb := Pieces(a[1..], c), Pieces(b, c);
        assert (ra + rb)[0] == ra[0] && (ra + rb)[1..] == ra[1..] + rb;
      }
    }
  }

  function DropTrailingEmpty(parts: seq<string>): (r: seq<string>)
    ensures |r| <= |parts| && r == parts[..|r|]
    ensures r != [] ==> r[|r| - 1] != ""
    ensures forall i :: |r| <= i < |parts| ==> parts[i] == ""
  {
    if parts != [] && parts[|parts| - 1] == "" then DropTrailingEmpty(parts[..|parts| - 1]) else parts
  }

  /** `s.split(String.valueOf(c))`: the input itself when `c` does not occur,
      else the pieces without the trailing empty ones. */
  function Split(s: string, c: char): (r: seq<string>)
    ensures c !in s ==> r == [s]
    ensures c in s ==> |r| <= |Pieces(s, c)|
    ensures c in s ==> r == Pieces(s, c)[..|r|] && (r != [] ==> r[|r| - 1] != "")
    ensures c in s ==> forall i :: |r| <= i < |Pieces(s, c)| ==> Pieces(s, c)[i] == ""
    ensures forall i :: 0 <= i < |r| ==> c !in r[i]
  {
    if c !in s then [s] else DropTrailingEmpty(Pieces(s, c))
  }

  /** The pieces are all empty exactly when the string is made only of
      separators. */
  lemma {:induction false} PiecesAllEmpty(s: string, c: char)
    ensures (forall i :: 0 <= i < |Pieces(s, c)| ==> Pieces(s, c)[i] == "")
            <==> (forall j :: 0 <= j < |s| ==> s[j] == c)
  {
    if s != [] {
      PiecesAllEmpty(s[1..], c);
      var rest := Pieces(s[1..], c);
      if s[0] == c {
        var ps := Pieces(s, c);
        assert ps == [""] + rest;
        if forall j :: 0 <= j < |s| ==> s[j] == c {
          assert forall j :: 0 <= j < |s[1..]| ==> s[1..][j] == s[j + 1];
          assert forall i :: 1 <= i < |ps| ==> ps[i] == rest[i - 1];
        }
        if forall i :: 0 <= i < |ps| ==> ps[i] == "" {
          assert forall i :: 0 <= i < |rest| ==> rest[i] == ps[i + 1];
          assert forall j :: 1 <= j < |s| ==> s[j] == s[1..][j - 1];
        }
      } else {
        assert Pieces(s, c)[0] != "";
      }
    }
  }

  /** `split` returns no parts exactly when the string is not empty and made
      only of separators. */
  lemma SplitEmptyIff(s: string, c: char)
    ensures Split(s, c) == [] <==> s != [] && forall j :: 0 <= j < |s| ==> s[j] == c
  {
    PiecesAllEmpty(s, c);
    if s != [] && forall j :: 0 <= j < |s| ==> s[j] == c {
      assert s[0] == c;
    }
  }

  /** After `split`, the last two parts of `prefix/x/y` are `x` and `y` when
      neither holds the separator and `y` is not empty. */
  lemma SplitLastTwo(prefix: string, c: char, x: string, y: string)
    requires c !in x && c !in y && y != ""
    ensures var r := Split(prefix + [c] + x + [c] + y, c);
            |r| >= 2 && r[|r| - 2] == x && r[|r| - 1] == y
  {
    var s := prefix + [c] + x + [c] + y;
    PiecesLast(prefix, c, x);
    PiecesLast(prefix + [c] + x, c, y);
    var ps := Pieces(s, c);
    assert ps == Pieces(prefix, c) + [x] + [y];
    assert s[|prefix|] == c;
    assert c in s;
    assert DropTrailingEmpty(ps) == ps;
  }

  /** After `split`, the last part of `prefix/y` is `y` when it holds no
      separator and is not empty. */
  lemma SplitLast(prefix: string, c: char, y: string)
    requires c !in y && y != ""
    ensures var r := Split(prefix + [c] + y, c);
            |r| >= 1 && r[|r| - 1] == y
  {
    var s := prefix + [c] + y;
    PiecesLast(prefix, c, y);
    assert s[|prefix|] == c;
    assert DropTrailingEmpty(Pieces(s, c)) == Pieces(s, c);
  }

  lemma PiecesLast(prefix: string, c: char, y: string)
    requires c !in y
    ensures Pieces(prefix + [c] + y, c) == Pieces(prefix, c) + [y]
  {
    PiecesAppend(prefix, c, y);
    SingletonPieces(y, c);
  }

  lemma {:induction false} SingletonPieces(x: string, c: char)
    requires c !in x
    ensures Pieces(x, c) == [x]
  {
    if x != [] {
      SingletonPieces(x[1..], c);
      assert x == [x[0]] + x[1..];
    }
  }

  /** `s.trim()`. */
  function TrimStart(s: string): (r: string)
    ensures |r| <= |s| && r == s[|s| - |r|..]
    ensures r == [] || r[0] > ' '
    ensures forall i :: 0 <= i < |s| - |r| ==> s[i] <= ' '
  {
    if s != [] && s[0] <= ' ' then TrimStart(s[1..]) else s
  }

  function TrimEnd(s: string): (r: string)
    ensures |r| <= |s| && r == s[..|r|]
    ensures r == [] || r[|r| - 1] > ' '
    ensures forall i :: |r| <= i < |s| ==> s[i] <= ' '
  {
    if s != [] && s[|s| - 1] <= ' ' then TrimEnd(s[..|s| - 1]) else s
  }

  function Trim(s: string): string {
    TrimEnd(TrimStart(s))
  }

  /** Trimming leaves nothing exactly when every character is at most U+0020. */
  lemma TrimEmptyIff(s: string)
    ensures Trim(s) == "" <==> forall i :: 0 <= i < |s| ==> s[i] <= ' '
  {
    var t := TrimStart(s);
    if Trim(s) == "" {
      assert t == [];
    } else {
      assert |t| > 0 && t[0] > ' ';
      assert s[|s| - |t|] == t[0];
    }
  }

  /** `Long.toString(n)`. */
  function DigitChar(d: int): char
    requires 0 <= d < 10
  {
    "0123456789"[d]
  }

  function NatToString(n: nat): (s: string)
    ensures s != []
    decreases n
  {
    if n < 10 then [DigitChar(n)] else NatToString(n / 10) + [DigitChar(n % 10)]
  }

  function IntToString(n: int): (s: string)
    ensures s != []
  {
    if n < 0 then "-" + NatToString(-n) else NatToString(n)
  }

  /** `list.toString()` for a `List<Long>`: `[a, b, c]`. */
  function LongListToString(xs: seq<int>): (s: string)
    ensures |s| >= 2 && s[0] == '['
  {
    "[" + JoinNumbers(xs) + "]"
  }

  function JoinNumbers(xs: seq<int>): string {
    if |xs| == 0 then ""
    else if |xs| == 1 then IntToString(xs[0])
    else IntToString(xs[0]) + ", " + JoinNumbers(xs[1..])
  }

  // ---------------------------------------------------------------------
  // URLEncoder.encode(s, UTF_8)

  /** The characters form encoding leaves alone. */
  predicate Unreserved(c: char) {
    ('a' <= c <= 'z') || ('A' <= c <= 'Z') || ('0' <= c <= '9') || c == '.' || c == '-' || c == '*' || c == '_'
  }

  /** The UTF-8 bytes of one character. */
  function Utf8(c: char): (bytes: seq<nat>)
    ensures 1 <= |bytes| <= 4
    ensures forall i :: 0 <= i < |bytes| ==> bytes[i] < 256
  {
    var cp := c as int;
    if cp < 0x80 then [cp]
    else if cp < 0x800 then [0xC0 + cp / 0x40, 0x80 + cp % 0x40]
    else if cp < 0x1_0000 then [0xE0 + cp / 0x1000, 0x80 + (cp / 0x40) % 0x40, 0x80 + cp % 0x40]
    else [0xF0 + cp / 0x4_0000, 0x80 + (cp / 0x1000) % 0x40, 0x80 + (cp / 0x40) % 0x40, 0x80 + cp % 0x40]
  }

  function HexDigit(d: nat): (c: char)
    requires d < 16
    ensures c != '/'
  {
    "0123456789ABCDEF"[d]
  }

  /** `%XX` per byte, upper-case hex. */
  function PercentBytes(bytes: seq<nat>): (s: string)
    requires forall i :: 0 <= i < |bytes| ==> bytes[i] < 256
    ensures |s| == 3 * |bytes|
    ensures '/' !in s
  {
    if bytes == [] then ""
    else ['%', HexDigit(bytes[0] / 16), HexDigit(bytes[0] % 16)] + PercentBytes(bytes[1..])
  }

  function EncodeChar(c: char): (s: string)
    ensures s != [] && '/' !in s
    ensures Unreserved(c) ==> s == [c]
    ensures c == ' ' ==> s == "+"
    ensures !Unreserved(c) && c != ' ' ==> s[0] == '%'
  {
    if Unreserved(c) then [c]
    else if c == ' ' then "+"
    else PercentBytes(Utf8(c))
  }

  function UrlEncode(s: string): (r: string)
    ensures |r| >= |s|
    ensures '/' !in r
  {
    if s == [] then "" else EncodeChar(s[0]) + UrlEncode(s[1..])
  }

  /** Encoding changes nothing in a string of unreserved characters, and
      leaves no empty result for a non-empty input. */
  lemma {:induction false} UrlEncodeUnreserved(s: string)
    requires forall i :: 0 <= i < |s| ==> Unreserved(s[i])
    ensures UrlEncode(s) == s
  {
    if s != [] {
      UrlEncodeUnreserved(s[1..]);
    }
  }

  /** A slash is always encoded, as `%2F`. */
  lemma SlashEncoded()
    ensures UrlEncode("/") == "%2F"
  {
    assert Utf8('/') == [0x2F];
  }

  /** Encoding distributes over concatenation. */
  lemma {:induction false} UrlEncodeAppend(a: string, b: string)
    ensures UrlEncode(a + b) == UrlEncode(a) + UrlEncode(b)
  {
    if a != [] {
      assert (a + b)[1..] == a[1..] + b;
      UrlEncodeAppend(a[1..], b);
    } else {
      assert a + b == b;
    }
  }
}
