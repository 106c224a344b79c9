/** The frontend's phone helpers: display formatting, validation, conversion to
    the international `+251` form, and the WhatsApp and Telegram contact links. */
module PhoneFormat {

  import opened Text
  import U = UserModel

  /** `formatPhoneNumber`: `+251 XX XXX XXXX` for 251 and nine more digits,
      `0XX XXX XXXX` for ten digits starting with 0, otherwise the input as given. */
  function FormatPhoneNumber(phone: string): string {
    var cleaned := Digits(phone);
    if StartsWith(cleaned, "251") && |cleaned| - 3 == 9 then
      var number := cleaned[3..];
      "+251 " + number[..2] + " " + number[2..5] + " " + number[5..]
    else if StartsWith(cleaned, "0") && |cleaned| == 10 then
      cleaned[..3] + " " + cleaned[3..6] + " " + cleaned[6..]
    else
      phone
  }

  /** `validateEthiopianPhone`: the digits are 251 and nine more, or ten starting with 0. */
  predicate ValidateEthiopianPhone(phone: string) {
    var cleaned := Digits(phone);
    || (StartsWith(cleaned, "251") && |cleaned| == 12)
    || (StartsWith(cleaned, "0") && |cleaned| == 10)
  }

  /** `normalizePhoneNumber`: `+` before digits that start with 251, `+251`
      instead of a leading 0, otherwise the input as given. */
  function NormalizePhoneNumber(phone: string): (r: string)
    ensures r == phone || (StartsWith(r, "+251") && AllDigits(r[1..]))
  {
    var cleaned := Digits(phone);
    if StartsWith(cleaned, "251") then "+" + cleaned
    else if StartsWith(cleaned, "0") then "+251" + cleaned[1..]
    else phone
  }

  /** `getWhatsAppLink` */
  function WhatsAppLink(phone: string): string {
    "https://wa.me/" + Digits(NormalizePhoneNumber(phone))
  }

  /** `getTelegramLink`: `replace('@', '')` drops only the first `@`. */
  function TelegramLink(username: string): string {
    "https://t.me/" + RemoveFirst(username, '@')
  }

  /** A space between two pieces adds no digit. */
  lemma DigitsSpaced(x: string, y: string)
    ensures Digits(x + " " + y) == Digits(x) + Digits(y)
  {
    DigitsAppend(x + " ", y);
    DigitsAppend(x, " ");
    DigitsOfNonDigits(" ");
  }

  /** Digits of a display-formatted number, pieced together again. */
  lemma DigitsOfPieces(a: string, b: string, c: string)
    requires AllDigits(a) && AllDigits(b) && AllDigits(c)
    ensures Digits(a + " " + b + " " + c) == a + b + c
  {
    DigitsOfDigits(a);
    DigitsOfDigits(b);
    DigitsOfDigits(c);
    DigitsSpaced(a, b);
    DigitsSpaced(a + " " + b, c);
  }

  /** Digits of a prefix followed by a display-formatted number. */
  lemma PrefixedDigits(p: string, a: string, b: string, c: string)
    requires AllDigits(a) && AllDigits(b) && AllDigits(c)
    ensures Digits(p + a + " " + b + " " + c) == Digits(p) + a + b + c
  {
    DigitsOfNonDigits(" ");
    DigitsOfDigits(a);
    DigitsOfDigits(b);
    DigitsOfDigits(c);
    var x1 := p + a;
    DigitsAppend(p, a);
    assert Digits(x1) == Digits(p) + a;
    var x2 := x1 + " ";
    DigitsAppend(x1, " ");
    assert Digits(x2) == Digits(p) + a;
    var x3 := x2 + b;
    DigitsAppend(x2, b);
    assert Digits(x3) == Digits(p) + a + b;
    var x4 := x3 + " ";
    DigitsAppend(x3, " ");
    assert Digits(x4) == Digits(p) + a + b;
    DigitsAppend(x4, c);
  }

  /** A `+` before a digit string adds no digit. */
  lemma DigitsAfterPlus(x: string)
    requires AllDigits(x)
    ensures Digits("+" + x) == x
  {
    assert ("+" + x)[0] == '+';
    assert ("+" + x)[1..] == x;
    DigitsOfDigits(x);
  }

  /** The country code before a digit string keeps it a digit string. */
  lemma CountryCodeDigits(x: string)
    requires AllDigits(x)
    ensures AllDigits("251" + x)
  {
    var t := "251" + x;
    forall i | 0 <= i < |t| ensures IsDigit(t[i]) {
      if i >= 3 {
        assert t[i] == x[i - 3];
      }
    }
  }

  /** The international prefix contributes the country code. */
  lemma IntlPrefixDigits()
    ensures Digits("+251 ") == "251"
  {
    DigitsAfterPlus("251");
    assert "+" + "251" == "+251";
    DigitsAppend("+251", " ");
    assert "+251" + " " == "+251 ";
    DigitsOfNonDigits(" ");
  }

  /** Formatting only inserts `+` and spaces: the digits are those of the input. */
  lemma FormatKeepsDigits(phone: string)
    ensures Digits(FormatPhoneNumber(phone)) == Digits(phone)
  {
    var cleaned := Digits(phone);
    if StartsWith(cleaned, "251") && |cleaned| - 3 == 9 {
      var number := cleaned[3..];
      PrefixedDigits("+251 ", number[..2], number[2..5], number[5..]);
      IntlPrefixDigits();
      assert number[..2] + number[2..5] + number[5..] == number;
      assert cleaned == "251" + number;
    } else if StartsWith(cleaned, "0") && |cleaned| == 10 {
      DigitsOfPieces(cleaned[..3], cleaned[3..6], cleaned[6..]);
      assert cleaned[..3] + cleaned[3..6] + cleaned[6..] == cleaned;
    }
  }

  /** Exactly the valid numbers are laid out; the rest come back unchanged, and
      a laid-out number has the length of its layout. */
  lemma FormatLayout(phone: string)
    ensures !ValidateEthiopianPhone(phone) ==> FormatPhoneNumber(phone) == phone
    ensures ValidateEthiopianPhone(phone) ==>
              var r := FormatPhoneNumber(phone);
              if StartsWith(Digits(phone), "251") then |r| == 16 && r[..5] == "+251 " && r[7] == ' ' && r[11] == ' '
              else |r| == 12 && r[0] == '0' && r[3] == ' ' && r[7] == ' '
  {
    var cleaned := Digits(phone);
    if StartsWith(cleaned, "0") {
      assert !StartsWith(cleaned, "251") by { assert cleaned[0] == '0'; }
    }
  }

  /** Formatting a formatted number changes nothing. */
  lemma FormatIdempotent(phone: string)
    ensures FormatPhoneNumber(FormatPhoneNumber(phone)) == FormatPhoneNumber(phone)
  {
    FormatKeepsDigits(phone);
  }

  /** The frontend accepts exactly the numbers whose international form the
      backend's `User` schema accepts. */
  lemma ValidateMatchesBackend(phone: string)
    ensures ValidateEthiopianPhone(phone) <==> U.EthiopianPhoneShape(NormalizePhoneNumber(phone))
  {
    var cleaned := Digits(phone);
    var r := NormalizePhoneNumber(phone);
    if StartsWith(cleaned, "251") {
      assert r[..4] == "+" + cleaned[..3];
      assert r[4..] == cleaned[3..];
    } else if StartsWith(cleaned, "0") {
      assert r[4..] == cleaned[1..];
    } else if U.EthiopianPhoneShape(phone) {
      if |phone| == 13 {
        assert phone == "+251" + phone[4..];
        DigitsAppend("+251", phone[4..]);
        DigitsAppend("+", "251");
        DigitsOfNonDigits("+");
        DigitsOfDigits("251");
        assert false;
      } else {
        DigitsOfDigits(phone);
        assert false;
      }
    }
  }

  /** Normalising any valid number gives `+251` and nine digits. */
  lemma NormalizeValid(phone: string)
    requires ValidateEthiopianPhone(phone)
    ensures var r := NormalizePhoneNumber(phone);
            |r| == 13 && r[..4] == "+251" && AllDigits(r[4..])
  {
    ValidateMatchesBackend(phone);
  }

  /** Normalising twice is normalising once. */
  lemma NormalizeIdempotent(phone: string)
    ensures NormalizePhoneNumber(NormalizePhoneNumber(phone)) == NormalizePhoneNumber(phone)
  {
    var cleaned := Digits(phone);
    var r := NormalizePhoneNumber(phone);
    if StartsWith(cleaned, "251") {
      DigitsAfterPlus(cleaned);
      assert Digits(r) == cleaned;
    } else if StartsWith(cleaned, "0") {
      var t := "251" + cleaned[1..];
      CountryCodeDigits(cleaned[1..]);
      DigitsAfterPlus(t);
      assert r == "+" + t;
      assert Digits(r)[..3] == "251";
    }
  }

  /** The WhatsApp link carries the number's digits, a leading local 0 replaced
      by the country code 251. */
  lemma WhatsAppDigits(phone: string)
    ensures var cleaned := Digits(phone);
            WhatsAppLink(phone) == "https://wa.me/" +
              (if !StartsWith(cleaned, "251") && StartsWith(cleaned, "0") then "251" + cleaned[1..] else cleaned)
  {
    var cleaned := Digits(phone);
    if StartsWith(cleaned, "251") {
      DigitsAfterPlus(cleaned);
    } else if StartsWith(cleaned, "0") {
      var t := "251" + cleaned[1..];
      CountryCodeDigits(cleaned[1..]);
      DigitsAfterPlus(t);
      assert "+251" + cleaned[1..] == "+" + t;
    }
  }

  /** The Telegram link drops one `@` (the first, wherever it is) and keeps every
      other character. */
  lemma TelegramDropsOneAt(username: string)
    ensures var handle := TelegramLink(username)[|"https://t.me/"|..];
            && Count(handle, '@') == (if '@' in username then Count(username, '@') - 1 else 0)
            && forall c :: c != '@' ==> Count(handle, c) == Count(username, c)
  {
    var handle := RemoveFirst(username, '@');
    assert TelegramLink(username)[|"https://t.me/"|..] == handle;
    RemoveFirstCount(username, '@');
    if '@' !in username {
      CountAbsent(username, '@');
    }
    forall c | c != '@'
      ensures Count(handle, c) == Count(username, c)
    {
      RemoveFirstOthers(username, '@', c);
    }
  }
}
