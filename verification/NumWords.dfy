/**
 Amounts in words, Indian numbering (apps/core/numwords.py): the printer as it is written, with
 its loops over crore, lakh and thousand, and a reader that undoes it.

 The reader splits the text into words, groups them at the last "Crore", then at "Lakh",
 "Thousand" and "Hundred", and adds up what it finds. That it returns the number printed shows
 that no two numbers share their words.
 */
module NumWords {
  import opened Rounding

  const ONES: seq<string> := [
    "", "One", "Two", "Three", "Four", "Five", "Six", "Seven", "Eight", "Nine", "Ten", "Eleven", "Twelve",
    "Thirteen", "Fourteen", "Fifteen", "Sixteen", "Seventeen", "Eighteen", "Nineteen"
  ]
  const TENS: seq<string> := ["", "", "Twenty", "Thirty", "Forty", "Fifty", "Sixty", "Seventy", "Eighty", "Ninety"]
  const CRORE := 10_000_000
  const LAKH := 100_000

  // ------------------------------------------------------------------ the printer

  /** " ".join(parts) */
  function Join(parts: seq<string>): string {
    if |parts| == 0 then ""
    else if |parts| == 1 then parts[0]
    else parts[0] + " " + Join(parts[1..])
  }

  function BelowHundred(n: nat): string
    requires n < 100
  {
    if n < 20 then ONES[n]
    else TENS[n / 10] + (if n % 10 != 0 then "-" + ONES[n % 10] else "")
  }

  function BelowThousand(n: nat): string
    requires n < 1000
  {
    Join((if n / 100 != 0 then [ONES[n / 100] + " Hundred"] else [])
         + (if n % 100 != 0 then [BelowHundred(n % 100)] else []))
  }

  function CrorePhrase(crore: nat): seq<string>
    decreases crore, 1
  {
    if crore != 0 then [NumberInWords(crore) + " Crore"] else []
  }

  function ScaledPhrase(n: nat, scale: string): seq<string>
    requires n < 100
  {
    if n != 0 then [BelowHundred(n) + " " + scale] else []
  }

  function SmallPhrase(n: nat): seq<string>
    requires n < 1000
  {
    if n != 0 then [BelowThousand(n)] else []
  }

  function NumberInWords(n: nat): string
    decreases n, 0
  {
    if n == 0 then "Zero"
    else Join(CrorePhrase(n / CRORE) + ScaledPhrase(n % CRORE / LAKH, "Lakh")
              + ScaledPhrase(n % LAKH / 1000, "Thousand") + SmallPhrase(n % 1000))
  }

  /** number_in_words as written: `n` is reduced by divmod and the parts are appended. */
  method PrintNumber(number: nat) returns (text: string)
    ensures text == NumberInWords(number)
  {
    if number == 0 {
      return "Zero";
    }
    var parts: seq<string>, n := [], number;
    var crore, lakh, thousand;
    crore, n := n / CRORE, n % CRORE;
    lakh, n := n / LAKH, n % LAKH;
    thousand, n := n / 1000, n % 1000;
    Remainders(number);
    if crore != 0 {
      var head := PrintNumber(crore);
      parts := parts + [head + " Crore"];
    }
    assert parts == CrorePhrase(crore);
    if lakh != 0 {
      parts := parts + [BelowHundred(lakh) + " " + "Lakh"];
    }
    assert parts == CrorePhrase(crore) + ScaledPhrase(lakh, "Lakh");
    if thousand != 0 {
      parts := parts + [BelowHundred(thousand) + " " + "Thousand"];
    }
    assert parts == CrorePhrase(crore) + ScaledPhrase(lakh, "Lakh") + ScaledPhrase(thousand, "Thousand");
    if n != 0 {
      parts := parts + [BelowThousand(n)];
    }
    assert parts == CrorePhrase(crore) + ScaledPhrase(lakh, "Lakh") + ScaledPhrase(thousand, "Thousand") + SmallPhrase(n);
    text := Join(parts);
  }

  lemma LakhRemainder(n: nat, q: nat, r: nat)
    requires n == LAKH * q + r && r < LAKH
    ensures n % LAKH == r
  {
  }

  lemma ThousandRemainder(n: nat, q: nat, r: nat)
    requires n == 1000 * q + r && r < 1000
    ensures n % 1000 == r
  {
  }

  lemma SmallRemainders(n: nat)
    ensures n % CRORE % LAKH == n % LAKH && n % LAKH % 1000 == n % 1000
  {
    var c, l := n % CRORE, n % LAKH;
    LakhRemainder(n, 100 * (n / CRORE) + c / LAKH, c % LAKH);
    ThousandRemainder(n, 100 * (n / LAKH) + l / 1000, l % 1000);
  }

  lemma Remainders(n: nat)
    ensures n % CRORE % LAKH == n % LAKH && n % LAKH % 1000 == n % 1000
    ensures n == n / CRORE * CRORE + n % CRORE / LAKH * LAKH + n % LAKH / 1000 * 1000 + n % 1000
    ensures n % CRORE / LAKH < 100 && n % LAKH / 1000 < 100
  {
    SmallRemainders(n);
    var c, l := n % CRORE, n % LAKH;
    assert n == n / CRORE * CRORE + c && c == c / LAKH * LAKH + c % LAKH && l == l / 1000 * 1000 + l % 1000;
  }

  function AmountText(minus: bool, rupees: nat, paise: nat): string {
    (if minus then "Minus " else "") + NumberInWords(rupees) + " Rupees"
    + (if paise != 0 then " and " + NumberInWords(paise) + " Paise" else "") + " Only"
  }

  /** rupees_in_words of an exact amount in rupees. */
  function RupeesInWords(amount: real): string {
    var paise := Hundredths(amount);
    var size := if paise < 0 then -paise else paise;
    AmountText(paise < 0, size / 100, size % 100)
  }

  // ------------------------------------------------------------------ the reader

  /** text.split(" ") */
  function Split(text: string): seq<string> {
    if text == "" then [""]
    else
      var rest := Split(text[1..]);
      if text[0] == ' ' then [""] + rest
      else if rest == [] then [[text[0]]]
      else [[text[0]] + rest[0]] + rest[1..]
  }

  function IndexOf<T(==)>(x: T, s: seq<T>): (i: nat)
    ensures i <= |s| && (i < |s| ==> s[i] == x)
    ensures forall j :: 0 <= j < i ==> s[j] != x
  {
    if s == [] || s[0] == x then 0 else 1 + IndexOf(x, s[1..])
  }

  /** The position just after the last `x`, or 0. */
  function AfterLast<T(==)>(x: T, s: seq<T>): (i: nat)
    ensures i <= |s| && (i > 0 ==> s[i - 1] == x)
    ensures forall j :: i <= j < |s| ==> s[j] != x
  {
    if s == [] then 0
    else if s[|s| - 1] == x then |s|
    else AfterLast(x, s[..|s| - 1])
  }

  lemma SplitAtFirst<T>(x: T, a: seq<T>, b: seq<T>)
    requires x !in a
    ensures IndexOf(x, a + [x] + b) == |a| && (a + [x] + b)[..|a|] == a && (a + [x] + b)[|a| + 1..] == b
  {
    var s := a + [x] + b;
    assert s[|a|] == x && forall i :: 0 <= i < |a| ==> s[i] == a[i];
  }

  lemma SplitAtLast<T>(x: T, a: seq<T>, b: seq<T>)
    requires x !in b
    ensures AfterLast(x, b) == 0 && b[0..] == b
    ensures AfterLast(x, a + [x] + b) == |a| + 1 && (a + [x] + b)[..|a|] == a && (a + [x] + b)[|a| + 1..] == b
  {
    var s := a + [x] + b;
    assert s[|a|] == x && forall i :: |a| < i < |s| ==> s[i] == b[i - |a| - 1];
  }

  function ReadSmall(w: string): nat {
    var h := IndexOf('-', w);
    if h < |w| then 10 * IndexOf(w[..h], TENS) + IndexOf(w[h + 1..], ONES)
    else if w in ONES then IndexOf(w, ONES)
    else 10 * IndexOf(w, TENS)
  }

  function ReadBelowCrore(ws: seq<string>): nat {
    if ws == [] then 0
    else if |ws| > 1 && ws[1] == "Lakh" then ReadSmall(ws[0]) * LAKH + ReadBelowCrore(ws[2..])
    else if |ws| > 1 && ws[1] == "Thousand" then ReadSmall(ws[0]) * 1000 + ReadBelowCrore(ws[2..])
    else if |ws| > 1 && ws[1] == "Hundred" then ReadSmall(ws[0]) * 100 + ReadBelowCrore(ws[2..])
    else ReadSmall(ws[0]) + ReadBelowCrore(ws[1..])
  }

  /** Everything before the last "Crore" is itself a number. */
  function ReadWords(ws: seq<string>): nat {
    if ws == ["Zero"] then 0
    else
      var i := AfterLast("Crore", ws);
      (if i == 0 then 0 else ReadWords(ws[..i - 1]) * CRORE) + ReadBelowCrore(ws[i..])
  }

  function ReadNumber(text: string): nat {
    ReadWords(Split(text))
  }

  function ReadSize(ws: seq<string>): nat {
    var i := IndexOf("Rupees", ws);
    var tail := ws[if i < |ws| then i + 1 else |ws|..];
    ReadWords(ws[..i]) * 100 + (if |tail| > 3 then ReadWords(tail[1..|tail| - 2]) else 0)
  }

  function ReadRupeesWords(ws: seq<string>): int {
    if |ws| > 0 && ws[0] == "Minus" then 0 - ReadSize(ws[1..]) else ReadSize(ws)
  }

  /** The signed number of paise an amount in words stands for. */
  function ReadRupees(text: string): int {
    ReadRupeesWords(Split(text))
  }

  // ------------------------------------------------------------------ the printer, word by word

  function SmallWords(n: nat): seq<string>
    requires n < 1000
  {
    (if n / 100 != 0 then [ONES[n / 100], "Hundred"] else [])
    + (if n % 100 != 0 then [BelowHundred(n % 100)] else [])
  }

  function ScaledWords(n: nat, scale: string): seq<string>
    requires n < 100
  {
    if n != 0 then [BelowHundred(n), scale] else []
  }

  function CroreWords(crore: nat): seq<string>
    decreases crore, 1
  {
    if crore != 0 then Words(crore) + ["Crore"] else []
  }

  function RestWords(lakh: nat, thousand: nat, rest: nat): seq<string>
    requires lakh < 100 && thousand < 100 && rest < 1000
  {
    ScaledWords(lakh, "Lakh") + ScaledWords(thousand, "Thousand") + SmallWords(rest)
  }

  function Words(n: nat): seq<string>
    decreases n, 0
  {
    if n == 0 then ["Zero"]
    else CroreWords(n / CRORE) + RestWords(n % CRORE / LAKH, n % LAKH / 1000, n % 1000)
  }

  lemma {:induction false} JoinAppend(a: seq<string>, b: seq<string>)
    ensures a != [] && b != [] ==> Join(a + b) == Join(a) + " " + Join(b)
    ensures a == [] ==> Join(a + b) == Join(b)
    ensures b == [] ==> Join(a + b) == Join(a)
  {
    if a == [] {
      assert a + b == b;
    } else if b == [] {
      assert a + b == a;
    } else if |a| > 1 {
      JoinAppend(a[1..], b);
      assert (a + b)[1..] == a[1..] + b;
    } else {
      assert (a + b)[1..] == b;
    }
  }

  /** One more phrase after the phrases, its words after the words. */
  lemma JoinPhrase(phrases: seq<string>, words: seq<string>, more: seq<string>, moreWords: seq<string>)
    requires Join(phrases) == Join(words) && (phrases == [] <==> words == [])
    requires Join(more) == Join(moreWords) && (more == [] <==> moreWords == [])
    ensures Join(phrases + more) == Join(words + moreWords)
    ensures phrases + more == [] <==> words + moreWords == []
  {
    hide Join;
    JoinAppend(phrases, more);
    JoinAppend(words, moreWords);
  }

  lemma ScaledJoin(n: nat, scale: string)
    requires n < 100
    ensures Join(ScaledPhrase(n, scale)) == Join(ScaledWords(n, scale))
    ensures ScaledPhrase(n, scale) == [] <==> ScaledWords(n, scale) == []
  {
  }

  lemma SmallJoin(n: nat)
    requires n < 1000
    ensures Join(SmallPhrase(n)) == Join(SmallWords(n))
    ensures SmallPhrase(n) == [] <==> SmallWords(n) == []
  {
    var w := if n / 100 != 0 then [ONES[n / 100], "Hundred"] else [];
    var p := if n / 100 != 0 then [ONES[n / 100] + " Hundred"] else [];
    var m := if n % 100 != 0 then [BelowHundred(n % 100)] else [];
    assert Join(p) == Join(w);
    JoinPhrase(p, w, m, m);
  }

  lemma JoinPhrases(p0: seq<string>, w0: seq<string>, p1: seq<string>, w1: seq<string>,
                    p2: seq<string>, w2: seq<string>, p3: seq<string>, w3: seq<string>)
    requires Join(p0) == Join(w0) && (p0 == [] <==> w0 == [])
    requires Join(p1) == Join(w1) && (p1 == [] <==> w1 == [])
    requires Join(p2) == Join(w2) && (p2 == [] <==> w2 == [])
    requires Join(p3) == Join(w3) && (p3 == [] <==> w3 == [])
    ensures Join(p0 + p1 + p2 + p3) == Join(w0 + (w1 + w2 + w3))
    ensures p0 + p1 + p2 + p3 == [] <==> w0 + (w1 + w2 + w3) == []
  {
    hide Join;
    JoinPhrase(p0, w0, p1, w1);
    JoinPhrase(p0 + p1, w0 + w1, p2, w2);
    JoinPhrase(p0 + p1 + p2, w0 + w1 + w2, p3, w3);
    assert w0 + w1 + w2 + w3 == w0 + (w1 + w2 + w3);
  }

  lemma CroreJoin(crore: nat)
    requires crore != 0 ==> NumberInWords(crore) == Join(Words(crore)) && Words(crore) != []
    ensures Join(CrorePhrase(crore)) == Join(CroreWords(crore))
    ensures CrorePhrase(crore) == [] <==> CroreWords(crore) == []
  {
    hide NumberInWords, Words;
    if crore != 0 {
      JoinAppend(Words(crore), ["Crore"]);
    }
  }

  /** The printed text is its words with single spaces between. */
  lemma {:induction false} PrintsItsWords(n: nat)
    ensures NumberInWords(n) == Join(Words(n)) && Words(n) != []
  {
    if n != 0 {
      var crore, lakh, thousand, rest := n / CRORE, n % CRORE / LAKH, n % LAKH / 1000, n % 1000;
      if crore != 0 {
        PrintsItsWords(crore);
      }
      Remainders(n);
      ScaledJoin(lakh, "Lakh");
      ScaledJoin(thousand, "Thousand");
      SmallJoin(rest);
      CroreJoin(crore);
      NotAllZero(n);
      hide Join, CrorePhrase, CroreWords, ScaledPhrase, ScaledWords, SmallPhrase, SmallWords;
      JoinPhrases(CrorePhrase(crore), CroreWords(crore), ScaledPhrase(lakh, "Lakh"), ScaledWords(lakh, "Lakh"),
                  ScaledPhrase(thousand, "Thousand"), ScaledWords(thousand, "Thousand"),
                  SmallPhrase(rest), SmallWords(rest));
    }
  }

  lemma NotAllZero(n: nat)
    requires n != 0
    ensures CrorePhrase(n / CRORE) + ScaledPhrase(n % CRORE / LAKH, "Lakh")
            + ScaledPhrase(n % LAKH / 1000, "Thousand") + SmallPhrase(n % 1000) != []
  {
    hide NumberInWords, BelowHundred, BelowThousand;
    Remainders(n);
  }

  // ------------------------------------------------------------------ the round trip

  predicate Atom(w: string) {
    |w| <= 9 && forall i :: 0 <= i < |w| ==> w[i] != ' ' && w[i] != '-'
  }

  lemma OnesAtom(n: nat)
    requires n < 20
    ensures Atom(ONES[n])
  {
  }

  lemma TensAtom(n: nat)
    requires n < 10
    ensures Atom(TENS[n])
  {
  }

  lemma OnesDistinct(i: nat, j: nat)
    requires 0 <= i < j < 20
    ensures ONES[i] != ONES[j]
  {
    var a, b := ONES[i], ONES[j];
    if |a| == |b| {
      assert |a| >= 3;
      assert a[0] != b[0] || a[1] != b[1] || a[2] != b[2];
    }
  }

  lemma TensDistinct(i: nat, j: nat)
    requires 2 <= i < j < 10
    ensures TENS[i] != TENS[j]
  {
    var a, b := TENS[i], TENS[j];
    if |a| == |b| {
      assert a[0] != b[0] || a[1] != b[1] || a[2] != b[2];
    }
  }

  /** In a list the first occurrence of a word no earlier entry equals is its own position. */
  lemma FirstOccurrence(s: seq<string>, n: nat)
    requires n < |s|
    requires forall i :: 0 <= i < n ==> s[i] != s[n]
    ensures IndexOf(s[n], s) == n
  {
  }

  lemma ReadsOnes(n: nat)
    requires n < 20
    ensures IndexOf(ONES[n], ONES) == n
  {
    forall i | 0 <= i < n ensures ONES[i] != ONES[n] {
      OnesDistinct(i, n);
    }
    FirstOccurrence(ONES, n);
  }

  lemma ReadsTens(n: nat)
    requires 2 <= n < 10
    ensures IndexOf(TENS[n], TENS) == n
  {
    forall i | 0 <= i < n ensures TENS[i] != TENS[n] {
      if i >= 2 {
        TensDistinct(i, n);
      } else {
        TensAtom(n);
      }
    }
    FirstOccurrence(TENS, n);
  }

  lemma TensNotOnes(n: nat, j: nat)
    requires 2 <= n < 10 && j < 20
    ensures TENS[n] != ONES[j]
  {
    var a, b := TENS[n], ONES[j];
    if |a| == |b| {
      assert |a| >= 5;
      assert a[0] != b[0] || a[1] != b[1] || a[2] != b[2] || a[3] != b[3];
    }
  }

  /** The words the reader gives a meaning of their own. */
  const RESERVED: seq<string> := ["Minus", "Rupees", "Lakh", "Thousand", "Hundred", "Crore", "Zero"]

  /** A word that is neither split nor taken for a sign, a scale or a currency. */
  predicate Plain(w: string) {
    ' ' !in w && w !in RESERVED
  }

  lemma OnesPlain(n: nat)
    requires 0 < n < 20
    ensures Plain(ONES[n])
  {
    OnesAtom(n);
    var w := ONES[n];
    forall r | r in RESERVED ensures w != r {
      if |w| == |r| {
        assert |w| >= 4 && (w[0] != r[0] || w[1] != r[1] || w[2] != r[2]);
      }
    }
  }

  lemma TensPlain(n: nat)
    requires 2 <= n < 10
    ensures Plain(TENS[n])
  {
    TensAtom(n);
    var w := TENS[n];
    forall r | r in RESERVED ensures w != r {
      if |w| == |r| {
        assert w[0] != r[0];
      }
    }
  }

  lemma HyphenPlain(a: string, b: string)
    requires Atom(a) && Atom(b)
    ensures Plain(a + "-" + b)
  {
    var w := a + "-" + b;
    assert w[|a|] == '-';
    forall r | r in RESERVED ensures w != r {
      NoReservedHyphen(r);
    }
  }

  lemma NoReservedHyphen(r: string)
    requires r in RESERVED
    ensures '-' !in r
  {
  }

  /** A hyphenated word is read part by part. */
  lemma HyphenRead(a: string, b: string)
    requires Atom(a) && Atom(b)
    ensures ReadSmall(a + "-" + b) == 10 * IndexOf(a, TENS) + IndexOf(b, ONES)
  {
    hide IndexOf;
    SplitAtFirst('-', a, b);
    assert a + "-" + b == a + ['-'] + b;
  }

  lemma CompoundRead(tens: nat, ones: nat)
    requires 2 <= tens < 10 && 0 < ones < 10
    ensures Plain(TENS[tens] + "-" + ONES[ones])
    ensures ReadSmall(TENS[tens] + "-" + ONES[ones]) == 10 * tens + ones
  {
    hide Atom, ReadSmall, IndexOf, Plain;
    TensAtom(tens);
    OnesAtom(ones);
    HyphenRead(TENS[tens], ONES[ones]);
    HyphenPlain(TENS[tens], ONES[ones]);
    ReadsTens(tens);
    ReadsOnes(ones);
  }

  lemma NoHyphen(w: string)
    requires Atom(w)
    ensures IndexOf('-', w) == |w|
  {
  }

  lemma OnesRead(n: nat)
    requires 0 < n < 20
    ensures ReadSmall(ONES[n]) == n && Plain(ONES[n])
  {
    OnesAtom(n);
    OnesPlain(n);
    ReadsOnes(n);
    NoHyphen(ONES[n]);
  }

  lemma TensRead(n: nat)
    requires 2 <= n < 10
    ensures ReadSmall(TENS[n]) == 10 * n && Plain(TENS[n])
  {
    TensAtom(n);
    TensPlain(n);
    ReadsTens(n);
    NoHyphen(TENS[n]);
    forall j: nat | j < 20 ensures TENS[n] != ONES[j] {
      TensNotOnes(n, j);
    }
  }

  lemma ReadsSmall(n: nat)
    requires 0 < n < 100
    ensures ReadSmall(BelowHundred(n)) == n && Plain(BelowHundred(n))
  {
    hide ReadSmall, Plain;
    if n < 20 {
      OnesRead(n);
    } else if n % 10 == 0 {
      TensRead(n / 10);
      assert TENS[n / 10] + "" == TENS[n / 10];
    } else {
      CompoundRead(n / 10, n % 10);
      assert TENS[n / 10] + ("-" + ONES[n % 10]) == TENS[n / 10] + "-" + ONES[n % 10];
    }
  }

  predicate AllPlain(ws: seq<string>) {
    forall i :: 0 <= i < |ws| ==> ' ' !in ws[i] && ws[i] !in ["Minus", "Rupees"]
  }

  predicate NoCroreOrZero(ws: seq<string>) {
    "Crore" !in ws && "Zero" !in ws
  }

  lemma ScaledRead(n: nat, scale: string, tail: seq<string>)
    requires n < 100 && (scale == "Lakh" || scale == "Thousand")
    requires AllPlain(tail) && NoCroreOrZero(tail)
    ensures AllPlain(ScaledWords(n, scale) + tail) && NoCroreOrZero(ScaledWords(n, scale) + tail)
    ensures ReadBelowCrore(ScaledWords(n, scale) + tail)
            == n * (if scale == "Lakh" then LAKH else 1000) + ReadBelowCrore(tail)
  {
    hide ReadSmall, BelowHundred;
    var ws := ScaledWords(n, scale) + tail;
    if n == 0 {
      assert ws == tail;
    } else {
      ReadsSmall(n);
      assert ws[2..] == tail;
    }
  }

  lemma SmallRead(n: nat)
    requires n < 1000
    ensures ReadBelowCrore(SmallWords(n)) == n
    ensures AllPlain(SmallWords(n)) && NoCroreOrZero(SmallWords(n))
  {
    hide ReadSmall, BelowHundred;
    var last := if n % 100 != 0 then [BelowHundred(n % 100)] else [];
    if n % 100 != 0 {
      ReadsSmall(n % 100);
      assert last[1..] == [];
    }
    assert ReadBelowCrore(last) == n % 100;
    if n / 100 != 0 {
      OnesRead(n / 100);
      assert SmallWords(n)[2..] == last;
    } else {
      assert SmallWords(n) == last;
    }
  }

  lemma RestRead(lakh: nat, thousand: nat, rest: nat)
    requires lakh < 100 && thousand < 100 && rest < 1000
    ensures ReadBelowCrore(RestWords(lakh, thousand, rest)) == lakh * LAKH + thousand * 1000 + rest
    ensures AllPlain(RestWords(lakh, thousand, rest)) && NoCroreOrZero(RestWords(lakh, thousand, rest))
  {
    hide SmallWords, ScaledWords, ReadBelowCrore, AllPlain, NoCroreOrZero;
    SmallRead(rest);
    ScaledRead(thousand, "Thousand", SmallWords(rest));
    ScaledRead(lakh, "Lakh", ScaledWords(thousand, "Thousand") + SmallWords(rest));
    assert RestWords(lakh, thousand, rest)
        == ScaledWords(lakh, "Lakh") + (ScaledWords(thousand, "Thousand") + SmallWords(rest));
  }

  lemma ReadAroundCrore(head: seq<string>, rest: seq<string>)
    requires NoCroreOrZero(rest)
    ensures ReadWords(rest) == ReadBelowCrore(rest)
    ensures ReadWords(head + ["Crore"] + rest) == ReadWords(head) * CRORE + ReadBelowCrore(rest)
  {
    hide ReadBelowCrore, AfterLast;
    SplitAtLast("Crore", head, rest);
    assert rest != ["Zero"] by {
      assert |rest| == 1 ==> rest[0] in rest;
    }
    assert (head + ["Crore"] + rest)[|head|] != "Zero";
  }

  lemma ZeroPlain()
    ensures AllPlain(["Zero"])
  {
  }

  lemma AllPlainConcat(a: seq<string>, b: seq<string>)
    requires AllPlain(a) && AllPlain(b)
    ensures AllPlain(a + ["Crore"] + b)
  {
  }

  lemma {:induction false} WordsRead(n: nat)
    ensures ReadWords(Words(n)) == n && AllPlain(Words(n))
  {
    hide RestWords, ReadBelowCrore, AllPlain, NoCroreOrZero;
    var lakh, thousand, small := n % CRORE / LAKH, n % LAKH / 1000, n % 1000;
    Remainders(n);
    RestRead(lakh, thousand, small);
    var crore, rest := n / CRORE, RestWords(lakh, thousand, small);
    ReadAroundCrore([], rest);
    if n == 0 {
      ZeroPlain();
    } else if crore == 0 {
      hide ReadWords;
      assert Words(n) == rest;
    } else {
      hide ReadWords;
      WordsRead(crore);
      ReadAroundCrore(Words(crore), rest);
      AllPlainConcat(Words(crore), rest);
    }
  }

  lemma {:induction false} SplitWord(w: string, rest: string)
    requires ' ' !in w
    ensures Split(w) == [w]
    ensures Split(w + " " + rest) == [w] + Split(rest)
  {
    if w == "" {
      assert (w + " " + rest)[1..] == rest;
    } else {
      SplitWord(w[1..], rest);
      assert [w[0]] + w[1..] == w;
      assert (w + " " + rest)[1..] == w[1..] + " " + rest;
    }
  }

  lemma {:induction false} SplitJoin(ws: seq<string>)
    requires ws != [] && AllPlain(ws)
    ensures Split(Join(ws)) == ws
  {
    if |ws| == 1 {
      SplitWord(ws[0], "");
    } else {
      SplitWord(ws[0], Join(ws[1..]));
      SplitJoin(ws[1..]);
    }
  }

  /** number_in_words loses nothing: reading the text gives the number back. */
  lemma NumberRoundTrip(n: nat)
    ensures ReadNumber(NumberInWords(n)) == n
  {
    PrintsItsWords(n);
    WordsRead(n);
    SplitJoin(Words(n));
  }

  lemma NumberInWordsInjective(a: nat, b: nat)
    requires NumberInWords(a) == NumberInWords(b)
    ensures a == b
  {
    NumberRoundTrip(a);
    NumberRoundTrip(b);
  }

  // ------------------------------------------------------------------ rupees and paise

  function PaiseWords(paise: nat): seq<string> {
    if paise != 0 then ["and"] + Words(paise) + ["Paise"] else []
  }

  function RupeesWords(minus: bool, rupees: nat, paise: nat): seq<string> {
    (if minus then ["Minus"] else []) + (Words(rupees) + (["Rupees"] + (PaiseWords(paise) + ["Only"])))
  }

  /** Once `rest` splits into `words`, a number printed before it splits into its own words first. */
  lemma SplitAppend(n: nat, rest: string, words: seq<string>)
    requires Split(rest) == words
    ensures Split(NumberInWords(n) + " " + rest) == Words(n) + words
  {
    hide Words, AllPlain, NumberInWords, Join, Split;
    PrintsItsWords(n);
    WordsRead(n);
    SplitWords(Words(n), rest);
  }

  lemma {:induction false} SplitWords(ws: seq<string>, rest: string)
    requires ws != [] && AllPlain(ws)
    ensures Split(Join(ws) + " " + rest) == ws + Split(rest)
  {
    hide Split;
    SplitWord(ws[0], rest);
    if |ws| > 1 {
      SplitWords(ws[1..], rest);
      SplitWord(ws[0], Join(ws[1..]) + " " + rest);
      assert Join(ws) + " " + rest == ws[0] + " " + (Join(ws[1..]) + " " + rest);
      assert ws == [ws[0]] + ws[1..];
    } else {
      assert ws == [ws[0]];
    }
  }

  /** What follows "Rupees". */
  function Ending(paise: nat): string {
    if paise != 0 then "and " + NumberInWords(paise) + " Paise Only" else "Only"
  }

  lemma EndingSplit(paise: nat)
    ensures Split(Ending(paise)) == PaiseWords(paise) + ["Only"]
  {
    hide Words, NumberInWords, Split;
    SplitWord("Only", "");
    if paise != 0 {
      SplitWord("Paise", "Only");
      assert "Paise" + " " + "Only" == "Paise Only";
      SplitAppend(paise, "Paise Only", ["Paise", "Only"]);
      var rest := NumberInWords(paise) + " " + "Paise Only";
      SplitWord("and", rest);
      assert Ending(paise) == "and" + " " + rest;
      assert PaiseWords(paise) + ["Only"] == ["and"] + (Words(paise) + ["Paise", "Only"]);
    }
  }

  lemma BodySplit(rupees: nat, paise: nat)
    ensures Split(NumberInWords(rupees) + " " + ("Rupees" + " " + Ending(paise)))
            == Words(rupees) + (["Rupees"] + (PaiseWords(paise) + ["Only"]))
  {
    hide Words, NumberInWords, Split, PaiseWords, Ending;
    EndingSplit(paise);
    SplitWord("Rupees", Ending(paise));
    SplitAppend(rupees, "Rupees" + " " + Ending(paise), ["Rupees"] + (PaiseWords(paise) + ["Only"]));
  }

  lemma RegroupWhole(sign: string, w: string)
    ensures sign + w + " Rupees" + "" + " Only" == sign + (w + " " + ("Rupees" + " " + "Only"))
  {
    assert " Rupees" + "" + " Only" == " " + ("Rupees" + " " + "Only");
  }

  lemma RegroupPaise(sign: string, w: string, p: string)
    ensures sign + w + " Rupees" + (" and " + p + " Paise") + " Only"
            == sign + (w + " " + ("Rupees" + " " + ("and " + p + " Paise Only")))
  {
    assert " Rupees" + (" and " + p + " Paise") + " Only" == " " + ("Rupees" + " " + ("and " + p + " Paise Only"));
  }

  lemma AmountRegrouped(minus: bool, rupees: nat, paise: nat)
    ensures AmountText(minus, rupees, paise)
            == (if minus then "Minus " else "")
               + (NumberInWords(rupees) + " " + ("Rupees" + " " + Ending(paise)))
  {
    hide NumberInWords;
    var sign := if minus then "Minus " else "";
    if paise == 0 {
      RegroupWhole(sign, NumberInWords(rupees));
    } else {
      RegroupPaise(sign, NumberInWords(rupees), NumberInWords(paise));
    }
  }

  /** The text of an amount splits into exactly its words. */
  lemma AmountSplit(minus: bool, rupees: nat, paise: nat)
    ensures Split(AmountText(minus, rupees, paise)) == RupeesWords(minus, rupees, paise)
  {
    hide Words, NumberInWords, Split, PaiseWords, Ending, AmountText;
    var body := NumberInWords(rupees) + " " + ("Rupees" + " " + Ending(paise));
    BodySplit(rupees, paise);
    AmountRegrouped(minus, rupees, paise);
    if minus {
      SplitWord("Minus", body);
      assert "Minus" + " " + body == "Minus " + body;
    } else {
      var words := Words(rupees) + (["Rupees"] + (PaiseWords(paise) + ["Only"]));
      assert "" + body == body && [] + words == words;
    }
  }

  lemma PaiseRead(paise: nat)
    ensures var tail := PaiseWords(paise) + ["Only"];
            (if |tail| > 3 then ReadWords(tail[1..|tail| - 2]) else 0) == paise
  {
    PrintsItsWords(paise);
    WordsRead(paise);
    hide Words, NumberInWords, ReadWords, AllPlain;
    if paise != 0 {
      var tail := PaiseWords(paise) + ["Only"];
      assert tail[1..|tail| - 2] == Words(paise);
    }
  }

  lemma CurrencyFree(n: nat)
    ensures |Words(n)| > 0 && Words(n)[0] != "Minus" && "Rupees" !in Words(n)
    ensures ReadWords(Words(n)) == n
  {
    WordsRead(n);
    PrintsItsWords(n);
    hide Words, ReadWords, NumberInWords;
  }

  lemma SizeRead(rupees: nat, paise: nat)
    ensures var ws := Words(rupees) + (["Rupees"] + (PaiseWords(paise) + ["Only"]));
            ReadSize(ws) == 100 * rupees + paise && |ws| > 0 && ws[0] != "Minus"
  {
    hide Words, ReadWords, PaiseWords, IndexOf;
    CurrencyFree(rupees);
    var tail := PaiseWords(paise) + ["Only"];
    SplitAtFirst("Rupees", Words(rupees), tail);
    PaiseRead(paise);
    assert Words(rupees) + (["Rupees"] + tail) == Words(rupees) + ["Rupees"] + tail;
  }

  lemma RupeesWordsRead(minus: bool, rupees: nat, paise: nat)
    ensures ReadRupeesWords(RupeesWords(minus, rupees, paise))
            == if minus then -(100 * rupees + paise) else 100 * rupees + paise
  {
    hide Words, PaiseWords, ReadSize;
    SizeRead(rupees, paise);
    var ws := Words(rupees) + (["Rupees"] + (PaiseWords(paise) + ["Only"]));
    if minus {
      assert RupeesWords(minus, rupees, paise)[1..] == ws;
    } else {
      assert RupeesWords(minus, rupees, paise) == ws;
    }
  }

  /** rupees_in_words determines the amount in paise, with its sign. */
  lemma RupeesRoundTrip(amount: real)
    ensures ReadRupees(RupeesInWords(amount)) == Hundredths(amount)
  {
    hide RupeesWords, ReadRupeesWords, AmountText;
    var paise := Hundredths(amount);
    var size := if paise < 0 then -paise else paise;
    AmountSplit(paise < 0, size / 100, size % 100);
    RupeesWordsRead(paise < 0, size / 100, size % 100);
  }
}
