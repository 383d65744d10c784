/** What the lines of a register say, however they are written by hand. */
module RegisterLines {
  import opened Bytes
  import opened Numerals
  import opened RegisterText

  predicate Spaces(s: string) {
    forall c :: c in s ==> IsSpace(c)
  }

  // ---- Trimming and comments ----

  lemma {:induction false} TrimLeftIs(s: string) returns (l: string)
    ensures Spaces(l) && s == l + TrimLeft(s)
    ensures TrimLeft(s) != "" ==> !IsSpace(TrimLeft(s)[0])
  {
    if s != "" && IsSpace(s[0]) {
      var more := TrimLeftIs(s[1..]);
      l := [s[0]] + more;
    } else {
      l := "";
    }
  }

  lemma {:induction false} TrimRightIs(s: string) returns (r: string)
    ensures Spaces(r) && s == TrimRight(s) + r
    ensures TrimRight(s) != "" ==> !IsSpace(TrimRight(s)[|TrimRight(s)| - 1]) && TrimRight(s)[0] == s[0]
  {
    if s != "" && IsSpace(s[|s| - 1]) {
      var more := TrimRightIs(s[..|s| - 1]);
      r := more + [s[|s| - 1]];
    } else {
      r := "";
    }
  }

  /** Trimming takes exactly the white space off both ends. */
  lemma TrimSpaceIs(s: string) returns (l: string, r: string)
    ensures Spaces(l) && Spaces(r) && s == l + TrimSpace(s) + r
    ensures var t := TrimSpace(s); t != "" ==> !IsSpace(t[0]) && !IsSpace(t[|t| - 1])
  {
    l := TrimLeftIs(s);
    r := TrimRightIs(TrimLeft(s));
  }

  lemma {:induction false} TrimLeftSpaces(l: string, s: string)
    requires Spaces(l) && (s != "" ==> !IsSpace(s[0]))
    ensures TrimLeft(l + s) == s
  {
    if l == "" {
      assert l + s == s;
    } else {
      assert (l + s)[0] == l[0] && (l + s)[1..] == l[1..] + s;
      TrimLeftSpaces(l[1..], s);
    }
  }

  lemma {:induction false} TrimRightSpaces(s: string, r: string)
    requires Spaces(r) && (s != "" ==> !IsSpace(s[|s| - 1]))
    ensures TrimRight(s + r) == s
  {
    if r == "" {
      assert s + r == s;
    } else {
      assert (s + r)[|s + r| - 1] == r[|r| - 1] && (s + r)[..|s + r| - 1] == s + r[..|r| - 1];
      TrimRightSpaces(s, r[..|r| - 1]);
    }
  }

  lemma TrimSpaces(l: string, s: string, r: string)
    requires Spaces(l) && Spaces(r) && (s != "" ==> !IsSpace(s[0]) && !IsSpace(s[|s| - 1]))
    ensures TrimSpace(l + s + r) == s
  {
    if s == "" {
      assert l + s + r == (l + r) + "";
      TrimLeftSpaces(l + r, "");
    } else {
      assert l + s + r == l + (s + r);
      TrimLeftSpaces(l, s + r);
      TrimRightSpaces(s, r);
    }
  }

  /** The comment starts at the first two slashes in a row, if there are any. */
  lemma {:induction false} CommentAtIs(s: string)
    ensures var at := CommentAt(s);
            && (at < |s| ==> at + 1 < |s| && s[at] == '/' && s[at + 1] == '/')
            && forall i :: 0 <= i < at && i + 1 < |s| ==> s[i] != '/' || s[i + 1] != '/'
  {
    if s != "" && !Starts(s, '/', '/') {
      CommentAtIs(s[1..]);
      var at := CommentAt(s);
      forall i | 0 <= i < at && i + 1 < |s|
        ensures s[i] != '/' || s[i + 1] != '/'
      {
        if i > 0 {
          assert s[1..][i - 1] == s[i] && s[1..][i] == s[i + 1];
        }
      }
    }
  }

  // ---- Blank and bad lines ----

  lemma NoEqualsIn(s: string)
    requires Spaces(s)
    ensures multiset(s)['='] == 0
  {
    assert '=' !in s;
  }

  lemma EqualsSplit(t: string)
    ensures var at := Index(t, '=');
            && (at == |t| <==> multiset(t)['='] == 0)
            && (at < |t| ==> multiset(t)['='] == 1 + multiset(t[at + 1..])['='])
  {
    var at := Index(t, '=');
    if at < |t| {
      assert t == t[..at] + ['='] + t[at + 1..];
      assert multiset(t[..at])['='] == 0;
    } else {
      assert t[..at] == t;
    }
  }

  /** A line is blank exactly if only white space stands before its comment, and bad exactly if it is not blank and not
      exactly one equals sign stands there. */
  lemma KindIff(line: string)
    ensures var before := line[..CommentAt(line)];
            && (KindOf(line).Blank? <==> Spaces(before))
            && (KindOf(line).Bad? <==> !Spaces(before) && multiset(before)['='] != 1)
  {
    var before := line[..CommentAt(line)];
    var t := TrimSpace(before);
    var l, r := TrimSpaceIs(before);
    NoEqualsIn(l);
    NoEqualsIn(r);
    assert multiset(before)['='] == multiset(t)['='];
    EqualsSplit(t);
    assert t != "" ==> t[0] in before;
    hide TrimSpace, IdOf, ToLower;
    assert t == "" ==> before == l + r;
    var at := Index(t, '=');
    if at < |t| {
      assert '=' in t[at + 1..] <==> multiset(t[at + 1..])['='] > 0;
    }
  }

  // ---- Entries ----

  /** The numeral stands for n: in decimal, or after 0x or 0X in hexadecimal with letters of either case. */
  predicate NumeralOf(num: string, n: nat) {
    || num == Digits(n, 10)
    || ((Starts(num, '0', 'x') || Starts(num, '0', 'X')) && ToLower(num[2..]) == ToLower(Digits(n, 16)))
  }

  lemma {:induction false} LowerDecimal(n: nat)
    ensures ToLower(Digits(n, 10)) == Digits(n, 10)
    ensures forall c :: c in Digits(n, 10) ==> '0' <= c <= '9'
  {
    if n >= 10 {
      LowerDecimal(n / 10);
      var d := Digits(n, 10);
      assert d == Digits(n / 10, 10) + [DIGITS[n % 10]];
      assert forall i :: 0 <= i < |d| ==> ToLower(d)[i] == d[i];
    }
    assert forall i :: 0 <= i < 10 ==> '0' <= DIGITS[i] <= '9';
  }

  lemma IdOfDecimal(n: U16)
    ensures IdOf(ToLower(Digits(n, 10))) == n
  {
    LowerDecimal(n);
    ParseDigits(n, 10, 0x1_0000);
    hide Digits, ParseUint;
    NotHex(n);
  }

  lemma NotHex(n: nat)
    ensures !Starts(Digits(n, 10), '0', 'x')
  {
    LowerDecimal(n);
    hide Digits;
    var d := Digits(n, 10);
    assert |d| >= 2 ==> d[1] in d;
  }

  lemma IdOfHexadecimal(num: string, n: U16)
    requires Starts(num, '0', 'x') || Starts(num, '0', 'X')
    requires ToLower(num[2..]) == ToLower(Digits(n, 16))
    ensures IdOf(ToLower(num)) == n
  {
    hide Digits, ParseUint, IdOf;
    var s := ToLower(num);
    assert s[2..] == ToLower(num[2..]);
    ParsePrinted(n);
    IdOfHex(s, n);
  }

  /** A numeral in either form gives its number as id. */
  lemma IdOfNumeral(num: string, n: U16)
    requires NumeralOf(num, n)
    ensures IdOf(ToLower(num)) == n
  {
    hide Digits, IdOf;
    if num == Digits(n, 10) {
      IdOfDecimal(n);
    } else {
      IdOfHexadecimal(num, n);
    }
  }

  /** Parsing a printed number at or above the limit is a range error. */
  lemma {:induction false} ParseTooLarge(n: nat, base: nat, limit: nat)
    requires ValidBase(base) && 0 < limit <= n
    ensures ParseUint(Digits(n, base), base, limit) == RangeError
  {
    var s := Digits(n, base);
    assert s[|s| - 1] == DIGITS[n % base];
    DigitValueOfDigit(n % base);
    if n < base {
      assert s[..0] == "";
      assert ParseFrom(s[..0], base, limit) == Value(0);
    } else {
      assert s[..|s| - 1] == Digits(n / base, base);
      assert n / base * base + n % base == n;
      if n / base < limit {
        ParseDigits(n / base, base, limit);
      } else {
        ParseTooLarge(n / base, base, limit);
      }
    }
  }

  /** An id that is too large is read as the greatest. */
  lemma IdTooLarge(n: nat)
    requires n >= 0x1_0000
    ensures IdOf(ToLower(Digits(n, 10))) == 0xffff
  {
    LowerDecimal(n);
    ParseTooLarge(n, 10, 0x1_0000);
    hide Digits, ParseUint;
    NotHex(n);
  }

  lemma {:induction false} ParseNoDigit(s: string, k: nat, limit: nat)
    requires 0 < k <= |s| && !('0' <= s[0] <= '9')
    ensures ParseFrom(s[..k], 10, limit) == SyntaxError
  {
    assert s[..k][..k - 1] == s[..k - 1];
    if k == 1 {
      assert ParseFrom(s[..0], 10, limit) == Value(0);
    } else {
      ParseNoDigit(s, k - 1, limit);
    }
  }

  /** What is no numeral at all is read as zero. */
  lemma IdOfNoNumeral(s: string)
    requires s == "" || !('0' <= s[0] <= '9')
    ensures IdOf(s) == 0
  {
    if s != "" {
      ParseNoDigit(s, |s|, 0x1_0000);
      assert s[..|s|] == s;
    }
  }

  /** An entry as it may stand in a line: white space b and c around the equals sign. */
  function EntryText(name: string, b: string, c: string, num: string): string {
    name + b + "=" + c + num
  }

  /** An entry by hand: a name, an equals sign and a numeral, with any white space around each, and any comment. */
  lemma HandwrittenEntry(
    a: string, name: string, b: string, c: string, num: string, d: string, comment: string, id: U16)
    requires Spaces(a) && Spaces(b) && Spaces(c) && Spaces(d) && TypeName(name) && NumeralOf(num, id)
    requires comment == "" || Starts(comment, '/', '/')
    ensures KindOf(a + EntryText(name, b, c, num) + d + comment) == Entry(Key(name, id))
  {
    hide KindOf, EntryText, TypeName, NumeralOf, TrimSpace, CommentAt;
    NumeralEnds(num, id);
    TextEnds(name, b, c, num);
    LineText(a, EntryText(name, b, c, num), d, comment);
    EntryOfText(a + EntryText(name, b, c, num) + d + comment, name, b, c, num, id);
  }

  lemma LineText(a: string, text: string, d: string, comment: string)
    requires Spaces(a) && Spaces(d) && (comment == "" || Starts(comment, '/', '/'))
    requires '/' !in text && text != "" && !IsSpace(text[0]) && !IsSpace(text[|text| - 1])
    ensures var line := a + text + d + comment;
            CommentAt(line) <= |line| && TrimSpace(line[..CommentAt(line)]) == text
  {
    TextBeforeComment(a, text, d, comment);
    TrimSpaces(a, text, d);
  }

  lemma EntryOfText(line: string, name: string, b: string, c: string, num: string, id: U16)
    requires TypeName(name) && Spaces(b) && Spaces(c) && NumeralOf(num, id)
    requires CommentAt(line) <= |line| && TrimSpace(line[..CommentAt(line)]) == EntryText(name, b, c, num)
    ensures KindOf(line) == Entry(Key(name, id))
  {
    hide KindOf, EntryText, TypeName, NumeralOf, TrimSpace, IdOf, ToLower, Index, Spaces, CommentAt;
    NumeralEnds(num, id);
    SplitText(name, b, c, num);
    TrimAround(name, b, c, num);
    IdOfNumeral(num, id);
    KindOfSplit(line, EntryText(name, b, c, num), |name + b|);
  }

  lemma TextBeforeComment(a: string, text: string, d: string, comment: string)
    requires Spaces(a) && Spaces(d) && '/' !in text && (comment == "" || Starts(comment, '/', '/'))
    ensures var line := (a + text + d) + comment;
            CommentAt(line) <= |line| && line[..CommentAt(line)] == a + text + d
  {
    NoSlash(a, text, d);
    CommentBehind(a + text + d, comment);
  }

  lemma TextEnds(name: string, b: string, c: string, num: string)
    requires TypeName(name) && Spaces(b) && Spaces(c)
    requires num != "" && !IsSpace(num[0]) && !IsSpace(num[|num| - 1]) && '/' !in num
    ensures var text := EntryText(name, b, c, num);
            text != "" && !IsSpace(text[0]) && !IsSpace(text[|text| - 1]) && '/' !in text
  {
    var text := EntryText(name, b, c, num);
    assert name[0] in name;
    assert text[0] == name[0] && text[|text| - 1] == num[|num| - 1];
  }

  lemma SplitText(name: string, b: string, c: string, num: string)
    requires TypeName(name) && Spaces(b) && Spaces(c) && '=' !in num
    ensures var text, at := EntryText(name, b, c, num), |name + b|;
            && Index(text, '=') == at < |text|
            && text[..at] == name + b && text[at + 1..] == c + num && '=' !in text[at + 1..]
  {
    var left, right := name + b, "=" + (c + num);
    assert EntryText(name, b, c, num) == left + right;
    IndexAt(left, right, '=');
    assert (left + right)[|left| + 1..] == c + num;
  }

  lemma TrimAround(name: string, b: string, c: string, num: string)
    requires TypeName(name) && Spaces(b) && Spaces(c)
    requires num != "" && !IsSpace(num[0]) && !IsSpace(num[|num| - 1])
    ensures TrimSpace(name + b) == name && TrimSpace(c + num) == num
  {
    assert name[0] in name && name[|name| - 1] in name;
    hide TrimSpace;
    TrimSpaces("", name, b);
    TrimSpaces(c, num, "");
    assert "" + name + b == name + b && c + num + "" == c + num;
  }

  lemma NoSlash(a: string, text: string, d: string)
    requires Spaces(a) && Spaces(d) && '/' !in text
    ensures '/' !in a + text + d
  {
  }

  lemma {:induction false} NoComment(s: string)
    requires '/' !in s
    ensures CommentAt(s) == |s|
  {
    if s != "" {
      NoComment(s[1..]);
    }
  }

  lemma CommentBehind(s: string, comment: string)
    requires '/' !in s && (comment == "" || Starts(comment, '/', '/'))
    ensures CommentAt(s + comment) == |s|
  {
    if comment == "" {
      assert s + comment == s;
      NoComment(s);
    } else {
      CommentAfter(s, comment);
    }
  }

  /** A numeral is not empty, has no space at its ends, and neither slash nor equals sign in it. */
  lemma NumeralEnds(num: string, n: nat)
    requires NumeralOf(num, n)
    ensures num != "" && !IsSpace(num[0]) && !IsSpace(num[|num| - 1]) && '/' !in num && '=' !in num
  {
    LowerDecimal(n);
    if num == Digits(n, 10) {
      hide Digits;
      assert num[0] in num && num[|num| - 1] in num;
    } else {
      var d := Digits(n, 16);
      assert |num[2..]| == |ToLower(num[2..])| == |d| > 0;
      forall i | 2 <= i < |num|
        ensures '0' <= num[i] <= '9' || 'A' <= num[i] <= 'Z' || 'a' <= num[i] <= 'z'
      {
        assert ToLower(num[2..])[i - 2] == LowerChar(num[i]) == LowerChar(d[i - 2]);
        assert d[i - 2] in d;
      }
    }
  }

  /** A printed entry: the id in hexadecimal with capital letters. */
  lemma PrintedExample()
    ensures Body(Item(26, "MessageA", "Ask\n")) == "MessageA = 0x1A // Ask\n"
  {
    assert Digits(26, 16) == Digits(1, 16) + [DIGITS[10]];
  }
}
