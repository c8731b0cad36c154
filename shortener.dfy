/** The base62 short-link codec (backend/core/shortener.py).

    A recipe's primary key is written in base 62, most significant digit first,
    over the alphabet digits, then lower-case, then upper-case Latin letters.
    `encode_base62` is a division loop that collects remainders and reverses
    them; `decode_base62` is a left-to-right accumulation that fails (the
    alphabet lookup raises) on a character outside the alphabet. */
module Shortener {
  import opened Common

  /** `count` consecutive characters starting at `first`. */
  function CharRange(first: char, count: nat): (r: string)
    requires first as int + count <= 0xD800
    ensures |r| == count
    ensures forall i :: 0 <= i < count ==> r[i] as int == first as int + i
  {
    seq(count, i requires 0 <= i < count => (first as int + i) as char)
  }

  /** `string.digits`, "0123456789". */
  const AsciiDigits: string := CharRange('0', 10)
  /** `string.ascii_letters`: "abc...z" followed by "ABC...Z". */
  const AsciiLetters: string := CharRange('a', 26) + CharRange('A', 26)
  /** `BASE62_ALPHABET = string.digits + string.ascii_letters`. */
  const Base62Alphabet: string := AsciiDigits + AsciiLetters

  /** The alphabet's layout: 62 symbols, digits, then lower-case, then upper-case. */
  lemma AlphabetLayout()
    ensures |Base62Alphabet| == 62
    ensures forall i :: 0 <= i < 10 ==> Base62Alphabet[i] as int == '0' as int + i
    ensures forall i :: 10 <= i < 36 ==> Base62Alphabet[i] as int == 'a' as int + (i - 10)
    ensures forall i :: 36 <= i < 62 ==> Base62Alphabet[i] as int == 'A' as int + (i - 36)
    ensures Base62Alphabet[0] == '0' && Base62Alphabet[10] == 'a' && Base62Alphabet[36] == 'A'
  {
  }

  lemma AlphabetDistinct()
    ensures NoDuplicates(Base62Alphabet)
  {
    AlphabetLayout();
  }

  /** Looking up the k-th symbol gives k back. */
  lemma IndexOfSymbol(k: nat)
    requires k < 62
    ensures |Base62Alphabet| == 62 && IndexOf(Base62Alphabet, Base62Alphabet[k]) == Some(k)
  {
    AlphabetDistinct();
    AlphabetLayout();
  }

  // ---------------------------------------------------------------------------
  // Specification functions

  /** The base-62 digits of `num`, most significant first; empty when the
      division loop does not run (`num <= 0`). */
  function Digits(num: int): string
    decreases if num > 0 then num else 0
  {
    if num <= 0 then [] else Digits(num / 62) + [Base62Alphabet[num % 62]]
  }

  /** What `encode_base62(num)` returns. */
  function Encode(num: int): string {
    if num == 0 then [Base62Alphabet[0]] else Digits(num)
  }

  /** One step of the decoding loop: `num * 62 + BASE62_ALPHABET.index(char)`,
      None once the lookup has failed. */
  function DecodeStep(acc: Option<nat>, c: char): Option<nat> {
    match acc
    case None => None
    case Some(num) =>
      match IndexOf(Base62Alphabet, c)
      case None => None
      case Some(d) => Some(num * 62 + d)
  }

  /** What `decode_base62(code)` returns; None where it raises. */
  function Decode(code: string): Option<nat> {
    if code == [] then Some(0)
    else DecodeStep(Decode(code[..|code| - 1]), code[|code| - 1])
  }

  /** Every character is one of the 62 symbols. */
  predicate InAlphabet(code: string) {
    forall i :: 0 <= i < |code| ==> code[i] in Base62Alphabet
  }

  // ---------------------------------------------------------------------------
  // The two loops of shortener.py

  method EncodeBase62(num: int) returns (code: string)
    ensures code == Encode(num)
    ensures num == 0 ==> code == "0"
    ensures num < 0 ==> code == ""
    ensures num >= 0 ==> Decode(code) == Some(num)
  {
    if num == 0 {
      code := [Base62Alphabet[0]];
      RoundTrip(num);
      return;
    }
    var n := num;
    var base62: seq<char> := [];
    while n > 0
      invariant Digits(num) == Digits(n) + Reversed(base62)
      decreases if n > 0 then n else 0
    {
      var rem := n % 62;
      n := n / 62;
      ReversedSnoc(base62, Base62Alphabet[rem]);
      base62 := base62 + [Base62Alphabet[rem]];
    }
    code := Reversed(base62);
    if num >= 0 {
      RoundTrip(num);
    }
  }

  method DecodeBase62(code: string) returns (r: Option<nat>)
    ensures r == Decode(code)
    ensures code == "" ==> r == Some(0)
    ensures r.None? <==> !InAlphabet(code)
  {
    var num := 0;
    for i := 0 to |code|
      invariant Decode(code[..i]) == Some(num)
    {
      var d := IndexOf(Base62Alphabet, code[i]);
      if d.None? {
        DecodeFailsIff(code);
        return None;
      }
      DecodeSnoc(code[..i], code[i]);
      assert code[..i + 1] == code[..i] + [code[i]];
      num := num * 62 + d.value;
    }
    assert code[..|code|] == code;
    DecodeFailsIff(code);
    r := Some(num);
  }

  // ---------------------------------------------------------------------------
  // Properties

  /** One more character: the accumulator step `num * 62 + index`. */
  lemma DecodeSnoc(p: string, c: char)
    ensures Decode(p + [c]) == DecodeStep(Decode(p), c)
  {
    var q := p + [c];
    assert q[..|q| - 1] == p;
    assert q[|q| - 1] == c;
  }

  lemma {:induction false} DigitsRoundTrip(n: nat)
    ensures Decode(Digits(n)) == Some(n)
  {
    if n > 0 {
      var c := Base62Alphabet[n % 62];
      DigitsRoundTrip(n / 62);
      IndexOfSymbol(n % 62);
      DecodeSnoc(Digits(n / 62), c);
      assert Digits(n) == Digits(n / 62) + [c];
    }
  }

  /** decode(encode(n)) == n for every n >= 0. */
  lemma RoundTrip(n: nat)
    ensures Decode(Encode(n)) == Some(n)
  {
    if n == 0 {
      IndexOfSymbol(0);
      assert [Base62Alphabet[0]][..0] == [];
    } else {
      DigitsRoundTrip(n);
    }
  }

  /** Different primary keys get different codes. */
  lemma EncodeInjective(m: nat, n: nat)
    requires Encode(m) == Encode(n)
    ensures m == n
  {
    RoundTrip(m);
    RoundTrip(n);
  }

  /** For n > 0 the code is non-empty, uses only the alphabet and never starts
      with the zero symbol. */
  lemma {:induction false} EncodeShape(n: nat)
    requires n > 0
    ensures |Encode(n)| >= 1 && InAlphabet(Encode(n)) && Encode(n)[0] != '0'
  {
    AlphabetLayout();
    if n / 62 > 0 {
      EncodeShape(n / 62);
    } else {
      assert Digits(n / 62) == [];
    }
  }

  /** A larger number never gets a shorter code. */
  lemma {:induction false} EncodeLengthMonotone(m: nat, n: nat)
    requires m <= n
    ensures |Encode(m)| <= |Encode(n)|
  {
    if m == 0 {
      if n > 0 { EncodeShape(n); }
    } else if m / 62 == 0 {
      assert Digits(m / 62) == [];
      EncodeShape(n);
    } else {
      EncodeLengthMonotone(m / 62, n / 62);
      assert n / 62 > 0;
    }
  }

  /** Decoding fails exactly when some character is outside the alphabet. */
  lemma {:induction false} DecodeFailsIff(code: string)
    ensures Decode(code).None? <==> !InAlphabet(code)
  {
    if code != [] {
      var p := code[..|code| - 1];
      DecodeFailsIff(p);
      assert InAlphabet(code) <==> InAlphabet(p) && code[|code| - 1] in Base62Alphabet by {
        if InAlphabet(p) && code[|code| - 1] in Base62Alphabet {
          forall i | 0 <= i < |code| ensures code[i] in Base62Alphabet {
            if i < |code| - 1 { assert code[i] == p[i]; }
          }
        }
      }
    }
  }

  /** Leading zero symbols do not change the value. */
  lemma {:induction false} DecodeLeadingZero(s: string)
    ensures Decode("0" + s) == Decode(s)
  {
    if s == [] {
      IndexOfSymbol(0);
      assert ("0" + s)[..0] == [];
    } else {
      var p, c := s[..|s| - 1], s[|s| - 1];
      var q := "0" + s;
      DecodeLeadingZero(p);
      assert q[..|q| - 1] == "0" + p;
      assert q[|q| - 1] == c;
      assert s[..|s| - 1] == p;
    }
  }

  /** A non-empty code over the alphabet that does not start with the zero
      symbol decodes to a positive number. */
  lemma {:induction false} DecodePositive(s: string)
    requires |s| >= 1 && InAlphabet(s) && s[0] != '0'
    ensures Decode(s).Some? && Decode(s).value > 0
  {
    DecodeFailsIff(s);
    var p := s[..|s| - 1];
    if |s| == 1 {
      IndexOfSymbol(0);
      var d := IndexOf(Base62Alphabet, s[0]);
      assert d.value != 0;
    } else {
      assert InAlphabet(p) by {
        forall i | 0 <= i < |p| ensures p[i] in Base62Alphabet { assert p[i] == s[i]; }
      }
      DecodePositive(p);
    }
  }

  /** encode(decode(s)) == s for a canonical code: non-empty, over the
      alphabet, no leading zero symbol. */
  lemma {:induction false} EncodeDecode(s: string)
    requires |s| >= 1 && InAlphabet(s) && s[0] != '0'
    ensures Decode(s).Some? && Encode(Decode(s).value) == s
  {
    var p, c := s[..|s| - 1], s[|s| - 1];
    assert s == p + [c];
    DecodePositive(s);
    DecodeSnoc(p, c);
    assert c in Base62Alphabet;
    var d := IndexOf(Base62Alphabet, c).value;
    assert |Base62Alphabet| == 62 by { AlphabetLayout(); }
    var m := Decode(p).value;
    var n := Decode(s).value;
    assert n == m * 62 + d;
    assert n / 62 == m && n % 62 == d;
    assert Digits(n) == Digits(m) + [c];
    if |s| == 1 {
      assert p == [];
    } else {
      assert InAlphabet(p) by {
        forall i | 0 <= i < |p| ensures p[i] in Base62Alphabet { assert p[i] == s[i]; }
      }
      EncodeDecode(p);
      DecodePositive(p);
    }
  }
}
