/**
 * The password generator: an alphabet is assembled from up to four character
 * classes, look-alike characters are optionally removed from the first three,
 * and `length` characters are drawn from the alphabet.
 *
 * `Math.random()` is replaced by `random`, a sequence of indices that the
 * caller guarantees to lie inside the alphabet (the role of
 * `Math.floor(Math.random() * chars.length)`).
 */
module Generator {

  import JsStrings
  import Seqs

  /** `n` consecutive characters starting at `first`. */
  function Run(first: char, n: nat): (r: string)
    requires first as int + n <= 0xD800
    ensures |r| == n
    ensures forall i :: 0 <= i < n ==> r[i] as int == first as int + i
  {
    seq(n, i requires 0 <= i < n => (first as int + i) as char)
  }

  const Upper: string := Run('A', 26)
  const Lower: string := Run('a', 26)
  const Numbers: string := Run('0', 10)
  const Symbols: string := "!@#$%^&*()_+[]{}|;:,.<>?"

  /** The characters the look-alike option removes (upper `OI`, lower `ol`, digits `01`). */
  const LookAlikes: set<char> := {'O', 'I', 'o', 'l', '0', '1'}

  /** The class strings, spelled out character by character as `generatePassword` lists them. */
  lemma ClassesSpelledOut()
    ensures Upper == "ABCDEFGHIJKLMNOPQRSTUVWXYZ"
    ensures Lower == "abcdefghijklmnopqrstuvwxyz"
    ensures Numbers == "0123456789"
  {
  }

  /** The alphabet `chars` for the given options. */
  function Alphabet(useUpper: bool, useLower: bool, useNumbers: bool, useSymbols: bool,
                    excludeLookAlikes: bool): (chars: string)
    ensures useSymbols ==> |chars| >= |Symbols| && chars[|chars| - |Symbols|..] == Symbols
    ensures !useSymbols && !useNumbers && !useLower && !useUpper ==> chars == ""
  {
    var upper := if excludeLookAlikes then JsStrings.Without(Upper, {'O', 'I'}) else Upper;
    var lower := if excludeLookAlikes then JsStrings.Without(Lower, {'o', 'l'}) else Lower;
    var numbers := if excludeLookAlikes then JsStrings.Without(Numbers, {'0', '1'}) else Numbers;
    (if useUpper then upper else "") + (if useLower then lower else "") +
    (if useNumbers then numbers else "") + (if useSymbols then Symbols else "")
  }

  /** The random source supplies, for each of the `length` draws, an index into a non-empty alphabet of size `n`. */
  predicate RandomFits(random: seq<nat>, length: int, n: nat)
  {
    n > 0 ==> |random| >= length && forall i :: 0 <= i < |random| && i < length ==> random[i] < n
  }

  /** Filtering the upper-case class removes exactly `I` and `O`. */
  lemma FilteredUpper()
    ensures JsStrings.Without(Upper, {'O', 'I'}) == Upper[..8] + Upper[9..14] + Upper[15..]
    ensures |JsStrings.Without(Upper, {'O', 'I'})| == 24
  {
    JsStrings.WithoutDropsTwo(Upper, 8, 14, {'O', 'I'});
  }

  /** Filtering the lower-case class removes exactly `l` and `o`. */
  lemma FilteredLower()
    ensures JsStrings.Without(Lower, {'o', 'l'}) == Lower[..11] + Lower[12..14] + Lower[15..]
    ensures |JsStrings.Without(Lower, {'o', 'l'})| == 24
  {
    JsStrings.WithoutDropsTwo(Lower, 11, 14, {'o', 'l'});
  }

  /** Filtering the digit class removes exactly `0` and `1`. */
  lemma FilteredNumbers()
    ensures JsStrings.Without(Numbers, {'0', '1'}) == Numbers[2..]
    ensures |JsStrings.Without(Numbers, {'0', '1'})| == 8
  {
    JsStrings.WithoutDropsTwo(Numbers, 0, 1, {'0', '1'});
    DropFirstTwo(Numbers);
  }

  /** Removing positions 0 and 1, written as three slices, is the suffix from 2. */
  lemma DropFirstTwo(s: string)
    requires |s| >= 2
    ensures s[..0] + s[1..1] + s[2..] == s[2..]
  {
    assert s[..0] == [] && s[1..1] == [];
  }

  /** The alphabet's size is the sum of the enabled class sizes (26/24, 26/24, 10/8, 24). */
  lemma AlphabetSize(useUpper: bool, useLower: bool, useNumbers: bool, useSymbols: bool,
                     excludeLookAlikes: bool)
    ensures |Alphabet(useUpper, useLower, useNumbers, useSymbols, excludeLookAlikes)| ==
      (if useUpper then (if excludeLookAlikes then 24 else 26) else 0) +
      (if useLower then (if excludeLookAlikes then 24 else 26) else 0) +
      (if useNumbers then (if excludeLookAlikes then 8 else 10) else 0) +
      (if useSymbols then 24 else 0)
  {
    FilteredUpper();
    FilteredLower();
    FilteredNumbers();
  }

  /** The alphabet is empty exactly when no class is enabled. */
  lemma AlphabetEmptyIff(useUpper: bool, useLower: bool, useNumbers: bool, useSymbols: bool,
                         excludeLookAlikes: bool)
    ensures Alphabet(useUpper, useLower, useNumbers, useSymbols, excludeLookAlikes) == "" <==>
      !useUpper && !useLower && !useNumbers && !useSymbols
  {
    AlphabetSize(useUpper, useLower, useNumbers, useSymbols, excludeLookAlikes);
  }

  /** The upper-case class holds exactly the letters `A` to `Z`. */
  lemma UpperLetters(c: char)
    requires c in Upper
    ensures 'A' <= c <= 'Z'
  {
    var i :| 0 <= i < |Upper| && Upper[i] == c;
  }

  /** The lower-case class holds exactly the letters `a` to `z`. */
  lemma LowerLetters(c: char)
    requires c in Lower
    ensures 'a' <= c <= 'z'
  {
    var i :| 0 <= i < |Lower| && Lower[i] == c;
  }

  /** The digit class holds exactly the digits `0` to `9`. */
  lemma NumberDigits(c: char)
    requires c in Numbers
    ensures '0' <= c <= '9'
  {
    var i :| 0 <= i < |Numbers| && Numbers[i] == c;
  }

  /**
   * Excluding look-alikes removes exactly the six look-alike characters:
   * nothing else of the enabled classes is lost, and none of them remains.
   */
  lemma ExclusionRemovesExactlyLookAlikes(useUpper: bool, useLower: bool, useNumbers: bool,
                                          useSymbols: bool, c: char)
    ensures c in Alphabet(useUpper, useLower, useNumbers, useSymbols, true) <==>
      c in Alphabet(useUpper, useLower, useNumbers, useSymbols, false) && c !in LookAlikes
  {
    JsStrings.WithoutMembers(Upper, {'O', 'I'}, c);
    JsStrings.WithoutMembers(Lower, {'o', 'l'}, c);
    JsStrings.WithoutMembers(Numbers, {'0', '1'}, c);
    if c in Upper { UpperLetters(c); }
    if c in Lower { LowerLetters(c); }
    if c in Numbers { NumberDigits(c); }
    SymbolsAreNotLookAlikes(c);
    ExclusionPieces(JsStrings.Without(Upper, {'O', 'I'}), Upper, useUpper,
                    JsStrings.Without(Lower, {'o', 'l'}), Lower, useLower,
                    JsStrings.Without(Numbers, {'0', '1'}), Numbers, useNumbers,
                    Symbols, useSymbols, c);
  }

  /** An ASCII letter or digit. */
  predicate Alphanumeric(c: char)
  {
    '0' <= c <= '9' || 'A' <= c <= 'Z' || 'a' <= c <= 'z'
  }

  /** The symbol class holds no letter or digit. */
  lemma SymbolsNotAlphanumeric(c: char)
    requires c in Symbols
    ensures !Alphanumeric(c)
  {
  }

  /** No symbol is a look-alike character. */
  lemma SymbolsAreNotLookAlikes(c: char)
    ensures c in Symbols ==> c !in LookAlikes
  {
    if c in Symbols {
      SymbolsNotAlphanumeric(c);
    }
  }

  /** The class-by-class reasoning behind `ExclusionRemovesExactlyLookAlikes`, over arbitrary pieces. */
  lemma ExclusionPieces(u: string, u': string, useU: bool, l: string, l': string, useL: bool,
                        n: string, n': string, useN: bool, s: string, useS: bool, c: char)
    requires c in u <==> c in u' && c !in {'O', 'I'}
    requires c in l <==> c in l' && c !in {'o', 'l'}
    requires c in n <==> c in n' && c !in {'0', '1'}
    requires c in u' ==> 'A' <= c <= 'Z'
    requires c in l' ==> 'a' <= c <= 'z'
    requires c in n' ==> '0' <= c <= '9'
    requires c in s ==> c !in LookAlikes
    ensures c in (if useU then u else "") + (if useL then l else "") + (if useN then n else "") + (if useS then s else "")
      <==> c in (if useU then u' else "") + (if useL then l' else "") + (if useN then n' else "") + (if useS then s else "")
           && c !in LookAlikes
  {
  }

  /** The symbol class is never filtered: every symbol is available whether or not look-alikes are excluded. */
  lemma SymbolsNeverFiltered(useUpper: bool, useLower: bool, useNumbers: bool,
                             excludeLookAlikes: bool, c: char)
    requires c in Symbols
    ensures c in Alphabet(useUpper, useLower, useNumbers, true, excludeLookAlikes)
  {
  }

  /**
   * The alphabet is the enabled classes concatenated in the order upper, lower,
   * numbers, symbols, less the removed characters: an order-preserving
   * subsequence of the unfiltered concatenation.
   */
  lemma {:induction false} AlphabetWithinEnabledClasses(useUpper: bool, useLower: bool,
                                                        useNumbers: bool, useSymbols: bool,
                                                        excludeLookAlikes: bool)
    ensures Seqs.IsSubsequence(Alphabet(useUpper, useLower, useNumbers, useSymbols, excludeLookAlikes),
                               Alphabet(useUpper, useLower, useNumbers, useSymbols, false))
  {
    FilteredWithin(Upper, useUpper, {'O', 'I'}, Lower, useLower, {'o', 'l'},
                   Numbers, useNumbers, {'0', '1'}, Symbols, useSymbols, excludeLookAlikes);
  }

  /** `AlphabetWithinEnabledClasses` for any class strings and any removed characters. */
  lemma FilteredWithin(u: string, useU: bool, du: set<char>, l: string, useL: bool, dl: set<char>,
                       n: string, useN: bool, dn: set<char>, s: string, useS: bool, e: bool)
    ensures Seqs.IsSubsequence(
      (if useU then (if e then JsStrings.Without(u, du) else u) else "") +
      (if useL then (if e then JsStrings.Without(l, dl) else l) else "") +
      (if useN then (if e then JsStrings.Without(n, dn) else n) else "") + (if useS then s else ""),
      (if useU then u else "") + (if useL then l else "") + (if useN then n else "") + (if useS then s else ""))
  {
    if e {
      JsStrings.WithoutIsSubsequence(u, du);
      JsStrings.WithoutIsSubsequence(l, dl);
      JsStrings.WithoutIsSubsequence(n, dn);
    } else {
      Seqs.SubsequenceRefl(u);
      Seqs.SubsequenceRefl(l);
      Seqs.SubsequenceRefl(n);
    }
    ConcatWithin(if e then JsStrings.Without(u, du) else u, u, useU,
                 if e then JsStrings.Without(l, dl) else l, l, useL,
                 if e then JsStrings.Without(n, dn) else n, n, useN, s, useS);
  }

  /** Enabled pieces that are subsequences of their classes concatenate to a subsequence of the classes' concatenation. */
  lemma ConcatWithin(u: string, u': string, useU: bool, l: string, l': string, useL: bool,
                     n: string, n': string, useN: bool, s: string, useS: bool)
    requires Seqs.IsSubsequence(u, u') && Seqs.IsSubsequence(l, l') && Seqs.IsSubsequence(n, n')
    ensures Seqs.IsSubsequence(
      (if useU then u else "") + (if useL then l else "") + (if useN then n else "") + (if useS then s else ""),
      (if useU then u' else "") + (if useL then l' else "") + (if useN then n' else "") + (if useS then s else ""))
  {
    var U, L, N, S := (if useU then u else ""), (if useL then l else ""),
                      (if useN then n else ""), (if useS then s else "");
    var U', L', N' := (if useU then u' else ""), (if useL then l' else ""), (if useN then n' else "");
    Seqs.SubsequenceRefl(S);
    Seqs.SubsequenceConcat(U, U', L, L');
    Seqs.SubsequenceConcat(U + L, U' + L', N, N');
    Seqs.SubsequenceConcat(U + L + N, U' + L' + N', S, S);
  }

  /** The alphabet-building statements of `generatePassword`: filter the classes, then append the enabled ones. */
  method AssembleAlphabet(useUpper: bool, useLower: bool, useNumbers: bool, useSymbols: bool,
                          excludeLookAlikes: bool)
    returns (chars: string)
    ensures chars == Alphabet(useUpper, useLower, useNumbers, useSymbols, excludeLookAlikes)
  {
    var upper, lower, numbers, symbols := Upper, Lower, Numbers, Symbols;
    if excludeLookAlikes {
      upper := JsStrings.Without(upper, {'O', 'I'});
      lower := JsStrings.Without(lower, {'o', 'l'});
      numbers := JsStrings.Without(numbers, {'0', '1'});
    }

    chars := "";
    if useUpper { chars := chars + upper; }
    assert chars == (if useUpper then upper else "");
    if useLower { chars := chars + lower; }
    assert chars == (if useUpper then upper else "") + (if useLower then lower else "");
    if useNumbers { chars := chars + numbers; }
    assert chars == (if useUpper then upper else "") + (if useLower then lower else "") + (if useNumbers then numbers else "");
    if useSymbols { chars := chars + symbols; }
    assert chars == (if useUpper then upper else "") + (if useLower then lower else "") + (if useNumbers then numbers else "") + (if useSymbols then symbols else "");
  }

  /**
   * `generatePassword`. With no class enabled the result is empty whatever
   * `length` is; otherwise it has `length` characters (none when `length` is
   * negative), the `i`-th being the alphabet's character at the `i`-th draw.
   * `excludeLookAlikes` defaults to `true`, as in `generatePassword`'s signature.
   */
  method GeneratePassword(random: seq<nat>, length: int, useUpper: bool, useLower: bool,
                          useNumbers: bool, useSymbols: bool, excludeLookAlikes: bool := true)
    returns (pwd: string)
    requires RandomFits(random, length,
                        |Alphabet(useUpper, useLower, useNumbers, useSymbols, excludeLookAlikes)|)
    ensures !useUpper && !useLower && !useNumbers && !useSymbols ==> pwd == ""
    ensures Alphabet(useUpper, useLower, useNumbers, useSymbols, excludeLookAlikes) == "" ==> pwd == ""
    ensures Alphabet(useUpper, useLower, useNumbers, useSymbols, excludeLookAlikes) != "" ==>
      |pwd| == (if length < 0 then 0 else length)
    ensures forall i :: 0 <= i < |pwd| ==>
      i < |random| &&
      random[i] < |Alphabet(useUpper, useLower, useNumbers, useSymbols, excludeLookAlikes)| &&
      pwd[i] == Alphabet(useUpper, useLower, useNumbers, useSymbols, excludeLookAlikes)[random[i]]
    ensures forall c :: c in pwd ==> c in Alphabet(useUpper, useLower, useNumbers, useSymbols, false)
  {
    var chars := AssembleAlphabet(useUpper, useLower, useNumbers, useSymbols, excludeLookAlikes);
    AlphabetEmptyIff(useUpper, useLower, useNumbers, useSymbols, excludeLookAlikes);

    if |chars| == 0 {
      return "";
    }

    pwd := "";
    var i := 0;
    while i < length
      invariant 0 <= i <= (if length < 0 then 0 else length)
      invariant |pwd| == i
      invariant forall k :: 0 <= k < i ==> k < |random| && random[k] < |chars| && pwd[k] == chars[random[k]]
    {
      pwd := pwd + [chars[random[i]]];
      i := i + 1;
    }

    forall c | c in pwd
      ensures c in Alphabet(useUpper, useLower, useNumbers, useSymbols, false)
    {
      AlphabetWithinEnabled(useUpper, useLower, useNumbers, useSymbols, excludeLookAlikes, c);
    }
  }

  /** Every character of the alphabet belongs to an enabled class string. */
  lemma AlphabetWithinEnabled(useUpper: bool, useLower: bool, useNumbers: bool, useSymbols: bool,
                              excludeLookAlikes: bool, c: char)
    requires c in Alphabet(useUpper, useLower, useNumbers, useSymbols, excludeLookAlikes)
    ensures c in Alphabet(useUpper, useLower, useNumbers, useSymbols, false)
  {
    if excludeLookAlikes {
      ExclusionRemovesExactlyLookAlikes(useUpper, useLower, useNumbers, useSymbols, c);
    }
  }
}
