/**
 * The JavaScript string built-ins the core relies on, on `seq<char>`:
 * `replace` with a global character class, `split` on one character,
 * ASCII `toLowerCase`, `includes`, and `Number.prototype.toString` on integers.
 */
module JsStrings {

  import Seqs

  /** `s.replace(/[...]/g, "")`: `s` with every character of `drop` removed. */
  function Without(s: string, drop: set<char>): (r: string)
    ensures |r| <= |s|
    ensures forall c :: c in r ==> c in s && c !in drop
  {
    Seqs.Filter(s, c => c !in drop)
  }

  /** Exactly the characters of `s` outside `drop` survive. */
  lemma WithoutMembers(s: string, drop: set<char>, c: char)
    ensures c in Without(s, drop) <==> c in s && c !in drop
  {
    if c in s && c !in drop {
      Seqs.FilterComplete(s, c => c !in drop, c);
    }
  }

  /** Removing characters distributes over concatenation. */
  lemma WithoutAppend(a: string, b: string, drop: set<char>)
    ensures Without(a + b, drop) == Without(a, drop) + Without(b, drop)
  {
    Seqs.FilterAppend(a, b, c => c !in drop);
  }

  /** A string none of whose characters is dropped is unchanged. */
  lemma WithoutKeeps(s: string, drop: set<char>)
    requires forall c :: c in s ==> c !in drop
    ensures Without(s, drop) == s
  {
    Seqs.FilterKeepsAll(s, c => c !in drop);
  }

  /** Removing characters keeps the order of the rest. */
  lemma WithoutIsSubsequence(s: string, drop: set<char>)
    ensures Seqs.IsSubsequence(Without(s, drop), s)
  {
    Seqs.FilterIsSubsequence(s, c => c !in drop);
  }

  /** A dropped character at position `i` splits the result into what comes before and after it. */
  lemma WithoutDropsAt(s: string, i: nat, drop: set<char>)
    requires i < |s| && s[i] in drop
    ensures Without(s, drop) == Without(s[..i], drop) + Without(s[i+1..], drop)
  {
    var rest := s[i..];
    assert s == s[..i] + rest;
    WithoutAppend(s[..i], rest, drop);
    assert rest[0] == s[i] && rest[1..] == s[i+1..];
    assert Without(rest, drop) == Without(rest[1..], drop);
  }

  /** When exactly the positions `i < j` hold dropped characters, exactly those two are removed. */
  lemma WithoutDropsTwo(s: string, i: nat, j: nat, drop: set<char>)
    requires i < j < |s| && s[i] in drop && s[j] in drop
    requires forall k :: 0 <= k < |s| && k != i && k != j ==> s[k] !in drop
    ensures Without(s, drop) == s[..i] + s[i+1..j] + s[j+1..]
    ensures |Without(s, drop)| == |s| - 2
  {
    WithoutDropsAt(s, j, drop);
    assert s[..j][i] == s[i];
    WithoutDropsAt(s[..j], i, drop);
    assert s[..j][..i] == s[..i];
    assert s[..j][i+1..] == s[i+1..j];
    WithoutKeeps(s[..i], drop);
    WithoutKeeps(s[i+1..j], drop);
    WithoutKeeps(s[j+1..], drop);
  }

  /** Position of the first `c` in `s`, or `|s|` when `s` has none. */
  function IndexOf(s: string, c: char): (i: nat)
    ensures i <= |s|
    ensures i < |s| ==> s[i] == c
    ensures forall j :: 0 <= j < i ==> s[j] != c
  {
    if s == [] then 0
    else if s[0] == c then 0
    else 1 + IndexOf(s[1..], c)
  }

  /** `s.split(sep)` for a one-character separator: the pieces between consecutive separators. */
  function Split(s: string, sep: char): (parts: seq<string>)
    ensures |parts| >= 1
    ensures forall p :: p in parts ==> sep !in p
    decreases |s|
  {
    var i := IndexOf(s, sep);
    if i == |s| then [s] else [s[..i]] + Split(s[i+1..], sep)
  }

  /** `parts.join(sep)`. */
  function Join(parts: seq<string>, sep: char): string
  {
    if parts == [] then ""
    else if |parts| == 1 then parts[0]
    else parts[0] + [sep] + Join(parts[1..], sep)
  }

  /** Splitting loses nothing: joining the pieces gives the string back. */
  lemma {:induction false} JoinSplit(s: string, sep: char)
    ensures Join(Split(s, sep), sep) == s
    decreases |s|
  {
    var i := IndexOf(s, sep);
    var parts := Split(s, sep);
    if i == |s| {
      assert parts == [s];
    } else {
      var rest := Split(s[i+1..], sep);
      JoinSplit(s[i+1..], sep);
      assert parts == [s[..i]] + rest;
      assert |parts| >= 2 && parts[0] == s[..i] && parts[1..] == rest;
      assert Join(parts, sep) == s[..i] + [sep] + Join(rest, sep);
      assert s == s[..i] + [sep] + s[i+1..];
    }
  }

  /** Two separator-free pieces joined by one separator split back into exactly those two pieces. */
  lemma SplitTwo(a: string, b: string, sep: char)
    requires sep !in a && sep !in b
    ensures Split(a + [sep] + b, sep) == [a, b]
  {
    var s := a + [sep] + b;
    assert s[|a|] == sep;
    assert forall j :: 0 <= j < |a| ==> s[j] == a[j] && a[j] != sep;
    var i := IndexOf(s, sep);
    assert i == |a|;
    assert s[..i] == a && s[i+1..] == b;
    assert forall j :: 0 <= j < |b| ==> b[j] != sep;
    assert IndexOf(b, sep) == |b|;
  }

  /** ASCII `toLowerCase` of one character. */
  function LowerChar(c: char): char
  {
    if 'A' <= c <= 'Z' then (c as int + 32) as char else c
  }

  /** `s.toLowerCase()`, restricted to ASCII letters. */
  function Lower(s: string): (r: string)
    ensures |r| == |s|
    ensures forall i :: 0 <= i < |r| ==> !('A' <= r[i] <= 'Z')
  {
    seq(|s|, i requires 0 <= i < |s| => LowerChar(s[i]))
  }

  /** Lowercasing twice is lowercasing once. */
  lemma LowerIdempotent(s: string)
    ensures Lower(Lower(s)) == Lower(s)
  {
    forall i | 0 <= i < |s|
      ensures Lower(Lower(s))[i] == Lower(s)[i]
    {
      var c := s[i];
      assert Lower(s)[i] == LowerChar(c);
    }
  }

  /** `s.includes(sub)`. */
  predicate Includes(s: string, sub: string)
    ensures Includes(s, sub) ==> |sub| <= |s|
    decreases |s|
  {
    sub <= s || (s != [] && Includes(s[1..], sub))
  }

  /** `Includes` holds exactly when `sub` starts at some position of `s`. */
  lemma {:induction false} IncludesAt(s: string, sub: string)
    ensures Includes(s, sub) <==> exists k :: 0 <= k <= |s| && sub <= s[k..]
    decreases |s|
  {
    if s == [] {
      assert s[0..] == s;
    } else {
      IncludesAt(s[1..], sub);
      assert s[0..] == s;
      assert forall k :: 1 <= k <= |s| ==> s[1..][k-1..] == s[k..];
    }
  }

  /** The decimal digit `d` as a character. */
  function DigitChar(d: nat): char
    requires d < 10
  {
    ('0' as int + d) as char
  }

  /** The decimal spelling of a natural number, without leading zeros. */
  function NatToString(n: nat): (r: string)
    ensures |r| >= 1
    ensures forall i :: 0 <= i < |r| ==> '0' <= r[i] <= '9'
  {
    if n < 10 then [DigitChar(n)] else NatToString(n / 10) + [DigitChar(n % 10)]
  }

  /** `n.toString()` for an integer-valued JavaScript number. */
  function IntToString(n: int): (r: string)
    ensures |r| >= 1
    ensures forall i :: 1 <= i < |r| ==> '0' <= r[i] <= '9'
  {
    if n < 0 then "-" + NatToString(-n) else NatToString(n)
  }

  /** The number a digit string spells. */
  function ParseDigits(s: string): nat
    requires forall i :: 0 <= i < |s| ==> '0' <= s[i] <= '9'
  {
    if s == [] then 0
    else 10 * ParseDigits(s[..|s| - 1]) + (s[|s| - 1] as int - '0' as int)
  }

  /** Reading back the decimal spelling gives the number. */
  lemma {:induction false} ParseNatToString(n: nat)
    ensures ParseDigits(NatToString(n)) == n
  {
    if n >= 10 {
      ParseNatToString(n / 10);
      var s := NatToString(n);
      assert s[..|s| - 1] == NatToString(n / 10);
    }
  }

  /** A spelling starts with `-` exactly for negative numbers. */
  lemma SignShown(n: int)
    ensures n < 0 <==> IntToString(n)[0] == '-'
  {
    if n >= 0 {
      assert IntToString(n)[0] == NatToString(n)[0];
    }
  }

  /** Distinct natural numbers have distinct decimal spellings. */
  lemma NatToStringInjective(a: nat, b: nat)
    requires NatToString(a) == NatToString(b)
    ensures a == b
  {
    ParseNatToString(a);
    ParseNatToString(b);
  }

  /** Distinct integers have distinct spellings, so `toString` loses nothing. */
  lemma IntToStringInjective(a: int, b: int)
    requires IntToString(a) == IntToString(b)
    ensures a == b
  {
    SignShown(a);
    SignShown(b);
    if a < 0 {
      var sa, sb := NatToString(-a), NatToString(-b);
      assert IntToString(a) == "-" + sa && IntToString(b) == "-" + sb;
      assert sa == IntToString(a)[1..] && sb == IntToString(b)[1..];
      NatToStringInjective(-a, -b);
    } else {
      NatToStringInjective(a, b);
    }
  }
}
