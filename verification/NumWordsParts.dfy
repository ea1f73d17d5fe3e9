/** The words of a number by its parts, down to the words themselves (apps/core/numwords.py). */
module NumWordsParts {
  import opened NumWords
  import opened Rounding

  const ENGLISH: seq<string> := [
    "Zero", "One", "Two", "Three", "Four", "Five", "Six", "Seven", "Eight", "Nine", "Ten", "Eleven", "Twelve",
    "Thirteen", "Fourteen", "Fifteen", "Sixteen", "Seventeen", "Eighteen", "Nineteen"
  ]
  const ENGLISH_TENS: seq<string> := ["Twenty", "Thirty", "Forty", "Fifty", "Sixty", "Seventy", "Eighty", "Ninety"]

  // ------------------------------------------------------------------ a number and its parts

  lemma PartsOf(n: nat, crore: nat, lakh: nat, thousand: nat, small: nat)
    requires n == CRORE * crore + LAKH * lakh + 1000 * thousand + small && lakh < 100 && thousand < 100 && small < 1000
    ensures n / CRORE == crore && n % CRORE / LAKH == lakh && n % LAKH / 1000 == thousand && n % 1000 == small
  {
    CroreParts(n, crore, lakh, 1000 * thousand + small);
    LakhRemainder(n, 100 * crore + lakh, 1000 * thousand + small);
    ThousandParts(n % LAKH, thousand, small);
    ThousandRemainder(n, 10000 * crore + 100 * lakh + thousand, small);
  }

  lemma CroreParts(n: nat, crore: nat, lakh: nat, rest: nat)
    requires n == CRORE * crore + LAKH * lakh + rest && lakh < 100 && rest < LAKH
    ensures n / CRORE == crore && n % CRORE / LAKH == lakh
  {
    assert n % CRORE == LAKH * lakh + rest;
  }

  lemma ThousandParts(n: nat, thousand: nat, small: nat)
    requires n == 1000 * thousand + small && small < 1000
    ensures n / 1000 == thousand
  {
  }

  lemma WordsOfParts(n: nat, crore: nat, lakh: nat, thousand: nat, small: nat)
    requires n > 0 && n == CRORE * crore + LAKH * lakh + 1000 * thousand + small && lakh < 100 && thousand < 100 && small < 1000
    ensures NumberInWords(n)
            == Join(CrorePhrase(crore) + ScaledPhrase(lakh, "Lakh") + ScaledPhrase(thousand, "Thousand") + SmallPhrase(small))
  {
    PartsOf(n, crore, lakh, thousand, small);
    hide Join, CrorePhrase, ScaledPhrase, SmallPhrase;
  }

  lemma NoPhrase()
    ensures CrorePhrase(0) == [] && ScaledPhrase(0, "Lakh") == [] && ScaledPhrase(0, "Thousand") == [] && SmallPhrase(0) == []
  {
  }

  lemma OnePhrase(n: nat)
    requires n > 0
    ensures CrorePhrase(n) == [NumberInWords(n) + " Crore"]
    ensures n < 100 ==> ScaledPhrase(n, "Lakh") == [BelowHundred(n) + " Lakh"]
    ensures n < 100 ==> ScaledPhrase(n, "Thousand") == [BelowHundred(n) + " Thousand"]
    ensures n < 1000 ==> SmallPhrase(n) == [BelowThousand(n)]
  {
    hide NumberInWords, BelowHundred, BelowThousand;
    if n < 100 {
      assert BelowHundred(n) + " " + "Lakh" == BelowHundred(n) + " Lakh";
      assert BelowHundred(n) + " " + "Thousand" == BelowHundred(n) + " Thousand";
    }
  }

  lemma JoinOne(text: string)
    ensures Join([text]) == text
  {
  }

  lemma SmallWords(n: nat)
    requires 0 < n < 1000
    ensures NumberInWords(n) == BelowThousand(n)
  {
    hide NumberInWords, BelowThousand, Join, CrorePhrase, ScaledPhrase, SmallPhrase;
    WordsOfParts(n, 0, 0, 0, n);
    NoPhrase();
    OnePhrase(n);
    assert [] + [] + [] + [BelowThousand(n)] == [BelowThousand(n)];
    JoinOne(BelowThousand(n));
  }

  lemma HundredIsSmall(n: nat)
    requires 0 < n < 100
    ensures BelowThousand(n) == BelowHundred(n)
  {
    hide BelowHundred;
    assert [] + [BelowHundred(n)] == [BelowHundred(n)];
  }

  lemma HundredWords(n: nat)
    requires 0 < n < 100
    ensures NumberInWords(n) == BelowHundred(n)
  {
    hide NumberInWords, BelowThousand, BelowHundred;
    SmallWords(n);
    HundredIsSmall(n);
  }

  // ------------------------------------------------------------------ the words

  lemma OnesAreEnglish(n: nat)
    requires 0 < n < 20
    ensures BelowHundred(n) == ENGLISH[n]
  {
  }

  /** The numbers below twenty have words of their own. */
  lemma WordsBelowTwenty(n: nat)
    requires n < 20
    ensures NumberInWords(n) == ENGLISH[n]
  {
    if n > 0 {
      HundredWords(n);
      OnesAreEnglish(n);
      hide NumberInWords, BelowHundred;
    }
  }

  lemma TensAreEnglish(tens: nat, ones: nat)
    requires 2 <= tens < 10 && ones < 10
    ensures BelowHundred(10 * tens + ones) == ENGLISH_TENS[tens - 2] + (if ones == 0 then "" else "-" + ENGLISH[ones])
  {
    assert (10 * tens + ones) / 10 == tens && (10 * tens + ones) % 10 == ones;
    assert TENS[tens] == ENGLISH_TENS[tens - 2];
    if ones > 0 {
      assert ONES[ones] == ENGLISH[ones];
    }
    hide ENGLISH, ENGLISH_TENS, ONES, TENS;
  }

  /** So have the tens, and what comes after a ten follows a hyphen. */
  lemma WordsOfTens(tens: nat, ones: nat)
    requires 2 <= tens < 10 && ones < 10
    ensures NumberInWords(10 * tens + ones) == ENGLISH_TENS[tens - 2] + (if ones == 0 then "" else "-" + NumberInWords(ones))
  {
    hide NumberInWords, BelowHundred;
    HundredWords(10 * tens + ones);
    TensAreEnglish(tens, ones);
    WordsBelowTwenty(ones);
  }

  /** A remainder that is not nothing follows after a space. */
  function After(words: string, rest: nat): string {
    if rest == 0 then words else words + " " + NumberInWords(rest)
  }

  lemma HeadAndTail(head: string, tail: seq<string>, rest: nat)
    requires (tail == [] <==> rest == 0) && (rest > 0 ==> NumberInWords(rest) == Join(tail))
    ensures Join([head] + tail) == After(head, rest)
  {
    hide NumberInWords;
    JoinAppend([head], tail);
    JoinOne(head);
    hide Join;
  }

  lemma HundredsAndRest(hundreds: nat, rest: nat)
    requires 0 < hundreds < 10 && rest < 100
    ensures BelowThousand(100 * hundreds + rest) == Join([ONES[hundreds] + " Hundred"] + if rest != 0 then [BelowHundred(rest)] else [])
  {
    hide BelowHundred, Join;
    assert (100 * hundreds + rest) / 100 == hundreds && (100 * hundreds + rest) % 100 == rest;
  }

  lemma OnesWord(n: nat)
    requires 0 < n < 20
    ensures |ONES| == 20 && NumberInWords(n) == ONES[n]
  {
    HundredWords(n);
    hide NumberInWords;
  }

  lemma WordsOfHundreds(hundreds: nat, rest: nat)
    requires 0 < hundreds < 10 && rest < 100
    ensures NumberInWords(100 * hundreds + rest) == After(NumberInWords(hundreds) + " Hundred", rest)
  {
    hide NumberInWords, BelowThousand, BelowHundred, Join, After, ONES;
    OnesWord(hundreds);
    SmallWords(100 * hundreds + rest);
    HundredsAndRest(hundreds, rest);
    if rest > 0 {
      HundredWords(rest);
      JoinOne(BelowHundred(rest));
    }
    HeadAndTail(NumberInWords(hundreds) + " Hundred", if rest != 0 then [BelowHundred(rest)] else [], rest);
  }

  /** What follows the crores, the lakhs or the thousands. */
  lemma Tail(lakhs: nat, thousands: nat, rest: nat)
    requires lakhs < 100 && thousands < 100 && rest < 1000
    ensures var tail, small := ScaledPhrase(lakhs, "Lakh") + ScaledPhrase(thousands, "Thousand") + SmallPhrase(rest),
                               LAKH * lakhs + 1000 * thousands + rest;
            (tail == [] <==> small == 0) && (small > 0 ==> NumberInWords(small) == Join(tail))
  {
    hide NumberInWords, BelowThousand, BelowHundred, Join;
    var small := LAKH * lakhs + 1000 * thousands + rest;
    NoPhrase();
    if small > 0 {
      WordsOfParts(small, 0, lakhs, thousands, rest);
      var tail := ScaledPhrase(lakhs, "Lakh") + ScaledPhrase(thousands, "Thousand") + SmallPhrase(rest);
      assert [] + ScaledPhrase(lakhs, "Lakh") + ScaledPhrase(thousands, "Thousand") + SmallPhrase(rest) == tail;
    }
  }

  lemma WordsOfThousands(thousands: nat, rest: nat)
    requires 0 < thousands < 100 && rest < 1000
    ensures NumberInWords(1000 * thousands + rest) == After(NumberInWords(thousands) + " Thousand", rest)
  {
    hide NumberInWords, BelowThousand, BelowHundred, Join, CrorePhrase, ScaledPhrase, SmallPhrase, After;
    WordsOfParts(1000 * thousands + rest, 0, 0, thousands, rest);
    HundredWords(thousands);
    NoPhrase();
    OnePhrase(thousands);
    Tail(0, 0, rest);
    HeadAndTail(NumberInWords(thousands) + " Thousand", [] + [] + SmallPhrase(rest), rest);
    assert [] + [] + SmallPhrase(rest) == SmallPhrase(rest);
    assert [] + [] + [NumberInWords(thousands) + " Thousand"] + SmallPhrase(rest) == [NumberInWords(thousands) + " Thousand"] + SmallPhrase(rest);
  }

  lemma WordsOfLakhs(lakhs: nat, thousands: nat, rest: nat)
    requires 0 < lakhs < 100 && thousands < 100 && rest < 1000
    ensures NumberInWords(LAKH * lakhs + 1000 * thousands + rest) == After(NumberInWords(lakhs) + " Lakh", 1000 * thousands + rest)
  {
    hide NumberInWords, BelowThousand, BelowHundred, Join, CrorePhrase, ScaledPhrase, SmallPhrase, After;
    WordsOfParts(LAKH * lakhs + 1000 * thousands + rest, 0, lakhs, thousands, rest);
    HundredWords(lakhs);
    NoPhrase();
    OnePhrase(lakhs);
    Tail(0, thousands, rest);
    var head, tail := NumberInWords(lakhs) + " Lakh", [] + ScaledPhrase(thousands, "Thousand") + SmallPhrase(rest);
    HeadAndTail(head, tail, 1000 * thousands + rest);
    assert [] + [head] + ScaledPhrase(thousands, "Thousand") + SmallPhrase(rest) == [head] + tail;
  }

  /** Any number of crores, themselves in words. */
  lemma WordsOfCrores(crores: nat, lakhs: nat, thousands: nat, rest: nat)
    requires 0 < crores && lakhs < 100 && thousands < 100 && rest < 1000
    ensures var small := LAKH * lakhs + 1000 * thousands + rest;
            NumberInWords(CRORE * crores + small) == After(NumberInWords(crores) + " Crore", small)
  {
    hide NumberInWords, BelowThousand, BelowHundred, Join, CrorePhrase, ScaledPhrase, SmallPhrase, After;
    var small := LAKH * lakhs + 1000 * thousands + rest;
    WordsOfParts(CRORE * crores + small, crores, lakhs, thousands, rest);
    OnePhrase(crores);
    Tail(lakhs, thousands, rest);
    var head, tail := NumberInWords(crores) + " Crore",
                      ScaledPhrase(lakhs, "Lakh") + ScaledPhrase(thousands, "Thousand") + SmallPhrase(rest);
    HeadAndTail(head, tail, small);
    assert [head] + ScaledPhrase(lakhs, "Lakh") + ScaledPhrase(thousands, "Thousand") + SmallPhrase(rest) == [head] + tail;
  }

  /** An amount: the sign, the rupees, the paise if there are any, and "Only". */
  lemma WordsOfAmount(amount: real, paise: int)
    requires IsPaise(amount, paise)
    ensures var size := if paise < 0 then -paise else paise;
            RupeesInWords(amount)
            == (if paise < 0 then "Minus " else "") + NumberInWords(size / 100) + " Rupees"
               + (if size % 100 == 0 then "" else " and " + NumberInWords(size % 100) + " Paise") + " Only"
  {
    NearestPaise(amount, paise);
    hide NumberInWords, Hundredths, IsPaise;
  }
}
