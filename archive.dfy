/** Packaging the collected images (app.py, lines 144-148): entry i of the
    archive is the i-th collected image under the name
    f"gemini_thumb_{i+1:03d}.jpg". The zip byte format, compression and the
    in-memory buffer are not modelled: an archive is its list of entries. */
module Archive {
  import opened Render

  const Prefix: string := "gemini_thumb_"
  const Suffix: string := ".jpg"

  /** One `writestr(name, data)` call. */
  datatype Entry = Entry(name: string, data: Bytes)

  predicate IsDigit(c: char)
  {
    '0' <= c <= '9'
  }

  predicate AllDigits(s: string)
  {
    forall k :: 0 <= k < |s| ==> IsDigit(s[k])
  }

  function DigitChar(d: nat): (c: char)
    requires d < 10
    ensures IsDigit(c)
  {
    ('0' as int + d) as char
  }

  function DigitValue(c: char): (v: nat)
  {
    if IsDigit(c) then c as int - '0' as int else 0
  }

  /** The decimal digits of n, most significant first, as Python's str(n)
      writes them. */
  function Digits(n: nat): (r: string)
    ensures |r| >= 1 && AllDigits(r)
    ensures n < 10 <==> |r| == 1
  {
    if n < 10 then [DigitChar(n)] else Digits(n / 10) + [DigitChar(n % 10)]
  }

  /** The number a string of decimal digits denotes (leading zeros allowed). */
  function DecimalValue(s: string): (v: nat)
  {
    if s == [] then 0 else DecimalValue(s[..|s| - 1]) * 10 + DigitValue(s[|s| - 1])
  }

  function Zeros(k: nat): (r: string)
    ensures |r| == k && forall j :: 0 <= j < k ==> r[j] == '0'
  {
    seq(k, _ => '0')
  }

  /** Python's format spec `0{width}d` for a non-negative int: the digits of
      n, left-padded with zeros to at least `width` characters. */
  function PadDecimal(n: nat, width: nat): (r: string)
    ensures AllDigits(r)
    ensures |r| == if |Digits(n)| < width then width else |Digits(n)|
  {
    var d := Digits(n);
    if |d| < width then Zeros(width - |d|) + d else d
  }

  /** The archive name of the i-th collected image (0-based). */
  function EntryName(i: nat): (name: string)
  {
    Prefix + PadDecimal(i + 1, 3) + Suffix
  }

  /** Reading the digits back gives the number. */
  lemma {:induction false} DigitsRoundTrip(n: nat)
    ensures DecimalValue(Digits(n)) == n
    decreases n
  {
    var s := Digits(n);
    if n < 10 {
      assert s[..0] == [];
    } else {
      DigitsRoundTrip(n / 10);
      assert s[..|s| - 1] == Digits(n / 10);
    }
  }

  lemma {:induction false} ZerosValue(k: nat)
    ensures DecimalValue(Zeros(k)) == 0
  {
    if k > 0 {
      ZerosValue(k - 1);
      assert Zeros(k)[..k - 1] == Zeros(k - 1);
    }
  }

  /** Leading zeros do not change the value. */
  lemma {:induction false} LeadingZerosIgnored(k: nat, s: string)
    ensures DecimalValue(Zeros(k) + s) == DecimalValue(s)
    decreases |s|
  {
    if s == [] {
      assert Zeros(k) + s == Zeros(k);
      ZerosValue(k);
    } else {
      var t := Zeros(k) + s;
      assert t[..|t| - 1] == Zeros(k) + s[..|s| - 1];
      LeadingZerosIgnored(k, s[..|s| - 1]);
    }
  }

  /** Padding is reversible: the padded string still denotes n. */
  lemma PadRoundTrip(n: nat, width: nat)
    ensures DecimalValue(PadDecimal(n, width)) == n
  {
    DigitsRoundTrip(n);
    var d := Digits(n);
    if |d| < width {
      calc {
        DecimalValue(PadDecimal(n, width));
        DecimalValue(Zeros(width - |d|) + d);
        { LeadingZerosIgnored(width - |d|, d); }
        DecimalValue(d);
      }
    } else {
      assert PadDecimal(n, width) == d;
    }
  }

  /** The number field of an entry name: what lies between the prefix and the
      suffix. */
  lemma EntryNameParts(i: nat)
    ensures |EntryName(i)| == |Prefix| + |PadDecimal(i + 1, 3)| + |Suffix|
    ensures EntryName(i)[..|Prefix|] == Prefix
    ensures EntryName(i)[|EntryName(i)| - |Suffix|..] == Suffix
    ensures EntryName(i)[|Prefix|..|EntryName(i)| - |Suffix|] == PadDecimal(i + 1, 3)
  {
  }

  /** Different positions give different names, so the archive never holds
      two entries under one name. */
  lemma EntryNameInjective(i: nat, j: nat)
    requires EntryName(i) == EntryName(j)
    ensures i == j
  {
    EntryNameParts(i);
    EntryNameParts(j);
    PadRoundTrip(i + 1, 3);
    PadRoundTrip(j + 1, 3);
  }

  /** The names of entries 1, 27 and 1000: the number is zero-padded to
      three digits, and a fourth digit is added when needed. */
  lemma EntryNameExamples()
    ensures EntryName(0) == "gemini_thumb_001.jpg"
    ensures EntryName(26) == "gemini_thumb_027.jpg"
    ensures EntryName(999) == "gemini_thumb_1000.jpg"
  {
    assert Digits(1) == "1";
    assert Digits(27) == "27" by { assert Digits(2) == "2"; }
    assert Digits(1000) == "1000" by {
      assert Digits(1) == "1";
      assert Digits(10) == "10";
      assert Digits(100) == "100";
    }
  }

  /** Lines 146-148: one entry per collected image, in order. */
  method BuildArchive(images: seq<Bytes>) returns (entries: seq<Entry>)
    ensures |entries| == |images|
    ensures forall i :: 0 <= i < |entries| ==> entries[i] == Entry(EntryName(i), images[i])
    ensures forall i, j :: 0 <= i < j < |entries| ==> entries[i].name != entries[j].name
  {
    entries := [];
    for i := 0 to |images|
      invariant |entries| == i
      invariant forall k :: 0 <= k < i ==> entries[k] == Entry(EntryName(k), images[k])
    {
      entries := entries + [Entry(EntryName(i), images[i])];
    }
    forall i, j | 0 <= i < j < |entries| ensures entries[i].name != entries[j].name {
      if entries[i].name == entries[j].name {
        EntryNameInjective(i, j);
      }
    }
  }
}
