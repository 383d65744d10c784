/** The text of the message register: how it is read line by line, and how new entries are printed. */
module RegisterText {
  import opened Bytes
  import opened Numerals

  // ---- Strings ----

  predicate IsSpace(c: char) {
    c == ' ' || '\t' <= c <= '\r'
  }

  function TrimLeft(s: string): string {
    if s != "" && IsSpace(s[0]) then TrimLeft(s[1..]) else s
  }

  function TrimRight(s: string): string {
    if s != "" && IsSpace(s[|s| - 1]) then TrimRight(s[..|s| - 1]) else s
  }

  function TrimSpace(s: string): string {
    TrimRight(TrimLeft(s))
  }

  function LowerChar(c: char): char {
    if 'A' <= c <= 'Z' then c - 'A' + 'a' else c
  }

  function ToLower(s: string): (r: string)
    ensures |r| == |s| && forall i :: 0 <= i < |s| ==> r[i] == LowerChar(s[i])
  {
    seq(|s|, i requires 0 <= i < |s| => LowerChar(s[i]))
  }

  function Index(s: string, c: char): (at: nat)
    ensures at <= |s| && c !in s[..at] && (at < |s| ==> s[at] == c)
  {
    if s == "" || s[0] == c then 0 else Index(s[1..], c) + 1
  }

  predicate Starts(s: string, a: char, b: char) {
    |s| >= 2 && s[0] == a && s[1] == b
  }

  /** Where the comment starts; the length of the line if it has none. */
  function CommentAt(s: string): (at: nat)
    ensures at <= |s|
  {
    if s == "" || Starts(s, '/', '/') then 0 else CommentAt(s[1..]) + 1
  }

  // ---- Lines ----

  datatype Key = Key(name: string, id: U16)

  datatype Kind = Blank | Bad | Entry(key: Key)

  /** An id that does not parse is used all the same: zero, or the greatest if it is out of range. */
  function IdOf(s: string): U16 {
    var parsed := if Starts(s, '0', 'x') then ParseUint(s[2..], 16, 0x1_0000) else ParseUint(s, 10, 0x1_0000);
    match parsed
    case Value(n) => ToU16(n)
    case SyntaxError => 0
    case RangeError => 0xffff
  }

  function KindOf(line: string): Kind {
    var text := TrimSpace(line[..CommentAt(line)]);
    var at := Index(text, '=');
    if text == "" then Blank
    else if at == |text| || '=' in text[at + 1..] then Bad
    else Entry(Key(TrimSpace(text[..at]), IdOf(ToLower(TrimSpace(text[at + 1..])))))
  }

  const BUFFER: nat := 4096

  function DropReturn(s: string): string {
    if s != "" && s[|s| - 1] == '\r' then s[..|s| - 1] else s
  }

  /** bufio's ReadLine: the next line and what follows it. A line that fills the buffer is handed out in pieces. */
  function ReadLine(s: string): (r: (string, string))
    requires s != ""
    ensures |r.1| < |s|
  {
    var at := Index(s, '\n');
    if at < |s| && at < BUFFER then (DropReturn(s[..at]), s[at + 1..])
    else if |s| >= BUFFER then
      var n := if s[BUFFER - 1] == '\r' then BUFFER - 1 else BUFFER;
      (s[..n], s[n..])
    else (s, "")
  }

  /** The entries up to the first bad line, and whether there was none. */
  datatype Scanned = Scanned(keys: seq<Key>, complete: bool)

  function Scan(s: string): Scanned
    decreases |s|
  {
    if s == "" then Scanned([], true)
    else
      var (line, rest) := ReadLine(s);
      match KindOf(line)
      case Blank => Scan(rest)
      case Bad => Scanned([], false)
      case Entry(key) => var more := Scan(rest); Scanned([key] + more.keys, more.complete)
  }

  function AndThen(a: Scanned, b: Scanned): Scanned {
    if a.complete then Scanned(a.keys + b.keys, b.complete) else a
  }

  lemma {:induction false} TrimRightReturn(s: string)
    ensures TrimRight(s + "\r") == TrimRight(s)
  {
    assert (s + "\r")[..|s|] == s;
  }

  lemma {:induction false} TrimSpaceReturn(s: string)
    ensures TrimSpace(s + "\r") == TrimSpace(s)
    decreases |s|
  {
    if s == "" {
      assert TrimLeft("\r") == "" by {
        assert TrimLeft("\r"[1..]) == "";
      }
      assert s + "\r" == "\r";
    } else if IsSpace(s[0]) {
      assert (s + "\r")[1..] == s[1..] + "\r";
      TrimSpaceReturn(s[1..]);
    } else {
      TrimRightReturn(s);
    }
  }

  lemma {:induction false} CommentBeforeReturn(s: string)
    ensures CommentAt(s + "\r") == (if CommentAt(s) < |s| then CommentAt(s) else |s| + 1)
  {
    if s == "" {
      assert CommentAt("\r"[1..]) == 0;
      assert s + "\r" == "\r";
    } else {
      assert (s + "\r")[1..] == s[1..] + "\r";
      CommentBeforeReturn(s[1..]);
    }
  }

  lemma ReturnDoesNotMatter(s: string)
    ensures KindOf(DropReturn(s)) == KindOf(s)
  {
    hide IdOf, Index, ToLower;
    if DropReturn(s) != s {
      var t := DropReturn(s);
      assert s == t + "\r";
      CommentBeforeReturn(t);
      if CommentAt(t) < |t| {
        assert s[..CommentAt(s)] == t[..CommentAt(t)];
      } else {
        assert s[..CommentAt(s)] == s && t[..CommentAt(t)] == t;
        TrimSpaceReturn(t);
      }
    }
  }

  lemma {:induction false} IndexAppend(s: string, t: string, c: char)
    ensures Index(s, c) < |s| ==> Index(s + t, c) == Index(s, c)
    ensures Index(s, c) == |s| && t != "" && t[0] == c ==> Index(s + t, c) == |s|
    ensures Index(s, c) == |s| ==> Index(s + t, c) >= |s|
  {
    if s != "" && s[0] != c {
      assert (s + t)[1..] == s[1..] + t;
      IndexAppend(s[1..], t, c);
    } else if s == "" {
      assert s + t == t;
    }
  }

  /** Reading the first line does not look at what is appended, except that the last one gets its end. */
  lemma ReadLineAppend(s: string, tail: string)
    requires s != "" && tail != "" && tail[0] == '\n'
    ensures ReadLine(s + tail) == (ReadLine(s).0, ReadLine(s).1 + tail)
            || (ReadLine(s) == (s, "") && ReadLine(s + tail) == (DropReturn(s), tail[1..]))
  {
    var at := Index(s, '\n');
    IndexAppend(s, tail, '\n');
    if at < |s| && at < BUFFER {
      Cut(s, tail, at);
      Cut(s, tail, at + 1);
    } else if |s| >= BUFFER {
      Cut(s, tail, if s[BUFFER - 1] == '\r' then BUFFER - 1 else BUFFER);
    } else {
      Cut(s, tail, |s|);
      assert (s + tail)[|s| + 1..] == tail[1..];
    }
  }

  lemma Cut(s: string, t: string, n: nat)
    requires n <= |s|
    ensures (s + t)[..n] == s[..n] && (s + t)[n..] == s[n..] + t
  {
  }

  lemma Regroup(s: string, more: string)
    ensures s + ("\n" + more) == s + "\n" + more
  {
  }

  lemma ScanStep(s: string)
    requires s != ""
    ensures Scan(s) == AndThen(FirstOf(ReadLine(s).0), Scan(ReadLine(s).1))
  {
  }

  lemma AndThenAssociative(a: Scanned, b: Scanned, c: Scanned)
    ensures AndThen(AndThen(a, b), c) == AndThen(a, AndThen(b, c))
  {
  }

  lemma EmptyFirstLine(more: string)
    ensures Scan("\n" + more) == Scan(more)
  {
    var s := "\n" + more;
    assert Index(s, '\n') == 0;
    assert s[..0] == "" && s[1..] == more;
    assert KindOf("") == Blank;
  }

  /** What is appended after a line end is read after what was there. */
  lemma {:induction false} ScanAppend(text: string, more: string)
    ensures Scan(text + "\n" + more) == AndThen(Scan(text), Scan(more))
    decreases |text|
  {
    hide Scan, ReadLine, KindOf;
    var whole := text + "\n" + more;
    ScanEmpty();
    if text == "" {
      EmptyFirstLine(more);
      assert whole == "\n" + more;
    } else {
      var (line, rest) := ReadLine(text);
      Regroup(text, more);
      Regroup(rest, more);
      ReadLineAppend(text, "\n" + more);
      ReturnDoesNotMatter(text);
      ScanStep(text);
      ScanStep(whole);
      AndThenAssociative(FirstOf(line), Scan(rest), Scan(more));
      if ReadLine(whole) == (line, rest + "\n" + more) {
        ScanAppend(rest, more);
      }
    }
  }

  /** What one line adds. */
  function FirstOf(line: string): Scanned {
    var kind := KindOf(line);
    Scanned(if kind.Entry? then [kind.key] else [], !kind.Bad?)
  }

  lemma ScanEmpty()
    ensures Scan("") == Scanned([], true)
  {
  }

  // ---- Printing ----

  datatype Item = Item(id: U16, msg: string, comma: string)

  function KeyOf(it: Item): Key {
    Key(it.msg, it.id)
  }

  function Keys(items: seq<Item>): (r: seq<Key>)
    ensures |r| == |items| && forall i :: 0 <= i < |items| ==> r[i] == KeyOf(items[i])
  {
    seq(|items|, i requires 0 <= i < |items| => KeyOf(items[i]))
  }

  /** The printed entry up to its comment. */
  function Assignment(it: Item): string {
    it.msg + " = 0x" + Digits(it.id, 16)
  }

  /** A printed entry, without the final line end. */
  function Body(it: Item): string {
    Assignment(it) + " // " + it.comma
  }

  function Printed(items: seq<Item>): string {
    if items == [] then "" else Body(items[0]) + "\n" + Printed(items[1..])
  }

  /** The file after new items were written: unchanged if there are none. */
  function Appended(text: string, items: seq<Item>): string {
    if items == [] then text else text + "\n" + Printed(items)
  }

  /** A name of a Go type, of any length below what a line can hold. */
  predicate TypeName(s: string) {
    0 < |s| <= 4000 && forall c :: c in s ==> '0' <= c <= '9' || 'A' <= c <= 'Z' || 'a' <= c <= 'z' || c == '_'
  }

  // ---- Reading a printed entry ----

  lemma {:induction false} ParseLower(s: string, base: nat, limit: nat)
    requires ValidBase(base)
    ensures ParseFrom(ToLower(s), base, limit) == ParseFrom(s, base, limit)
  {
    if s != "" {
      var front := s[..|s| - 1];
      assert ToLower(s)[..|s| - 1] == ToLower(front);
      assert DigitValue(LowerChar(s[|s| - 1])) == DigitValue(s[|s| - 1]);
      ParseLower(front, base, limit);
    }
  }

  lemma ParsePrinted(id: U16)
    ensures ParseUint(ToLower(Digits(id, 16)), 16, 0x1_0000) == Value(id)
  {
    ParseLower(Digits(id, 16), 16, 0x1_0000);
    ParseDigits(id, 16, 0x1_0000);
    assert Digits(id, 16) != "";
    hide Digits, ParseFrom;
  }

  lemma IdOfHex(s: string, id: U16)
    requires Starts(s, '0', 'x') && ParseUint(s[2..], 16, 0x1_0000) == Value(id)
    ensures IdOf(s) == id
  {
    hide ParseUint;
  }

  lemma IdOfPrinted(id: U16)
    ensures IdOf(ToLower("0x" + Digits(id, 16))) == id
  {
    hide Digits, ParseUint, IdOf;
    var d := Digits(id, 16);
    var s := ToLower("0x" + d);
    assert s[2..] == ToLower(d);
    ParsePrinted(id);
    IdOfHex(s, id);
  }

  lemma {:induction false} CommentAfter(s: string, rest: string)
    requires '/' !in s && Starts(rest, '/', '/')
    ensures CommentAt(s + rest) == |s|
  {
    if s == "" {
      assert s + rest == rest;
    } else {
      assert (s + rest)[0] == s[0];
      assert (s + rest)[1..] == s[1..] + rest;
      CommentAfter(s[1..], rest);
    }
  }

  lemma IndexAt(s: string, t: string, c: char)
    requires c !in s && t != "" && t[0] == c
    ensures Index(s + t, c) == |s|
  {
    IndexBehind(s, t, c);
  }

  lemma TrimPadded(s: string)
    requires s != "" && !IsSpace(s[0]) && !IsSpace(s[|s| - 1])
    ensures TrimSpace(s) == TrimSpace(s + " ") == TrimSpace(" " + s) == s
  {
    assert (s + " ")[..|s|] == s;
    assert (" " + s)[1..] == s;
  }

  lemma KindOfEntry(it: Item, tail: string)
    requires TypeName(it.msg)
    ensures KindOf(Assignment(it) + " //" + tail) == Entry(KeyOf(it))
  {
    hide KindOf, TrimSpace, IdOf, ToLower;
    var d := Digits(it.id, 16);
    var text := Assignment(it);
    var line := text + " //" + tail;
    assert line == (text + " ") + ("//" + tail);
    CommentAfter(text + " ", "//" + tail);
    assert line[..CommentAt(line)] == text + " ";
    assert it.msg[0] in it.msg && it.msg[|it.msg| - 1] in it.msg && d[|d| - 1] in d;
    assert text[0] == it.msg[0] && text[|text| - 1] == d[|d| - 1];
    TrimPadded(text);
    SplitEntry(it);
    TrimPadded(it.msg);
    TrimPadded("0x" + d);
    IdOfPrinted(it.id);
    KindOfSplit(line, text, |it.msg| + 1);
  }

  lemma KindOfSplit(line: string, text: string, at: nat)
    requires TrimSpace(line[..CommentAt(line)]) == text
    requires at < |text| && Index(text, '=') == at && '=' !in text[at + 1..]
    ensures KindOf(line) == Entry(Key(TrimSpace(text[..at]), IdOf(ToLower(TrimSpace(text[at + 1..])))))
  {
    hide TrimSpace, IdOf, ToLower;
  }

  lemma SplitEntry(it: Item)
    requires TypeName(it.msg)
    ensures var text, at := Assignment(it), |it.msg| + 1;
            && Index(text, '=') == at && at < |text| && '=' !in text[at + 1..]
            && text[..at] == it.msg + " " && text[at + 1..] == " " + ("0x" + Digits(it.id, 16))
  {
    var left, right := it.msg + " ", "= 0x" + Digits(it.id, 16);
    var text, rest := Assignment(it), " " + ("0x" + Digits(it.id, 16));
    assert text == left + right;
    IndexAt(left, right, '=');
    assert text[|left| + 1..] == rest;
    assert '=' !in rest;
  }

  lemma {:induction false} DigitsShort(n: nat)
    ensures n < 0x10 ==> |Digits(n, 16)| <= 1
    ensures n < 0x100 ==> |Digits(n, 16)| <= 2
    ensures n < 0x1000 ==> |Digits(n, 16)| <= 3
    ensures n < 0x1_0000 ==> |Digits(n, 16)| <= 4
  {
    if n >= 0x10 {
      DigitsShort(n / 0x10);
    }
  }

  /** The first line read of a printed entry is the entry, however long its comment is. */
  lemma BodyFirst(it: Item)
    requires TypeName(it.msg)
    ensures KindOf(ReadLine(Body(it)).0) == Entry(KeyOf(it))
  {
    var head, tail := Assignment(it) + " //", " " + it.comma;
    DigitsShort(it.id);
    assert Body(it) == head + tail;
    FirstLineKeeps(head, tail);
    var line := ReadLine(Body(it)).0;
    assert line == head + line[|head|..];
    KindOfEntry(it, line[|head|..]);
  }

  lemma FirstLineKeeps(head: string, tail: string)
    requires 0 < |head| < BUFFER && '\n' !in head && head[|head| - 1] != '\r'
    ensures var line := ReadLine(head + tail).0; |head| <= |line| && line[..|head|] == head
  {
    IndexBehind(head, tail, '\n');
  }

  /** Nothing but blank lines and comments. */
  predicate Silent(s: string)
    decreases |s|
  {
    s == "" || (KindOf(ReadLine(s).0).Blank? && Silent(ReadLine(s).1))
  }

  lemma {:induction false} SilentScans(s: string)
    ensures Silent(s) <==> Scan(s) == Scanned([], true)
    decreases |s|
  {
    if s != "" {
      SilentScans(ReadLine(s).1);
    }
  }

  /** The entry is read back as that one entry. */
  predicate ReadsBack(it: Item) {
    Scan(Body(it)) == Scanned([KeyOf(it)], true)
  }

  /** An entry is read back exactly if every further line of its comment, as ReadLine cuts it, is silent. */
  lemma ReadsBackIff(it: Item)
    requires TypeName(it.msg)
    ensures ReadsBack(it) <==> Silent(ReadLine(Body(it)).1)
  {
    BodyFirst(it);
    SilentScans(ReadLine(Body(it)).1);
    ScanStep(Body(it));
  }

  /** In particular if the comment is a single line, ended or not, that fits the read buffer. */
  lemma SingleLineReadsBack(it: Item)
    requires TypeName(it.msg) && |Body(it)| < BUFFER
    requires Index(it.comma, '\n') + 1 >= |it.comma|
    ensures ReadsBack(it)
  {
    var head, s := Assignment(it) + " // ", Body(it);
    DigitsShort(it.id);
    assert '\n' !in head;
    assert s == head + it.comma;
    var at := Index(s, '\n');
    if at + 1 < |s| {
      IndexBehind(head, it.comma, '\n');
    }
    ReadsBackIff(it);
  }

  lemma {:induction false} IndexBehind(s: string, t: string, c: char)
    requires c !in s
    ensures Index(s + t, c) == |s| + Index(t, c)
  {
    if s == "" {
      assert s + t == t;
    } else {
      assert (s + t)[1..] == s[1..] + t;
      IndexBehind(s[1..], t, c);
    }
  }

  // ---- Reading the written file ----

  lemma KeysFront(items: seq<Item>)
    requires items != []
    ensures Keys(items) == [KeyOf(items[0])] + Keys(items[1..])
  {
  }

  lemma BodyNotEmpty(it: Item)
    requires TypeName(it.msg)
    ensures |Scan(Body(it)).keys| >= 1
  {
    BodyFirst(it);
    ScanStep(Body(it));
  }

  /** The items are read back exactly if each of them is. */
  lemma {:induction false} PrintedReadsBackIff(items: seq<Item>)
    requires forall it :: it in items ==> TypeName(it.msg)
    ensures Scan(Printed(items)).complete ==> |Scan(Printed(items)).keys| >= |items|
    ensures Scan(Printed(items)) == Scanned(Keys(items), true) <==> forall it :: it in items ==> ReadsBack(it)
  {
    if items != [] {
      var it, rest := items[0], items[1..];
      PrintedReadsBackIff(rest);
      ScanAppend(Body(it), Printed(rest));
      BodyNotEmpty(it);
      KeysFront(items);
      hide Scan, Body, TypeName;
      var a, b := Scan(Body(it)), Scan(Printed(rest));
      assert Printed(items) == Body(it) + "\n" + Printed(rest);
      if Scan(Printed(items)) == Scanned(Keys(items), true) {
        assert a.keys + b.keys == [KeyOf(it)] + Keys(rest);
        assert |a.keys| == 1;
        assert a.keys == (a.keys + b.keys)[..1];
        assert b.keys == (a.keys + b.keys)[1..];
        assert forall other :: other in items ==> other == it || other in rest;
      }
    } else {
      ScanEmpty();
    }
  }

  /** The written file is read to its end as the old entries followed by the new ones, exactly if the old file was
      and every new entry is read back. */
  lemma WrittenReadsBackIff(text: string, items: seq<Item>)
    requires forall it :: it in items ==> TypeName(it.msg)
    ensures Scan(Appended(text, items)) == Scanned(Scan(text).keys + Keys(items), true)
            <==> Scan(text).complete && forall it :: it in items ==> ReadsBack(it)
  {
    if items == [] {
      assert Scan(text).keys + Keys(items) == Scan(text).keys;
    } else {
      ScanAppend(text, Printed(items));
      PrintedReadsBackIff(items);
      hide Scan, Printed, ReadsBack;
      var a, b := Scan(text), Scan(Printed(items));
      if Scan(Appended(text, items)) == Scanned(a.keys + Keys(items), true) && a.complete {
        assert b.keys == (a.keys + b.keys)[|a.keys|..];
        assert b.keys == Keys(items);
      }
    }
  }

  /** Otherwise reading stops at the first comment line that is no entry: nothing behind it is seen again. */
  lemma BadCommentHidesRest(text: string, items: seq<Item>, k: nat)
    requires Scan(text).complete && k < |items| && !Scan(Body(items[k])).complete
    requires forall i :: 0 <= i < k ==> ReadsBack(items[i])
    ensures Scan(Appended(text, items))
            == Scanned(Scan(text).keys + (Keys(items[..k]) + Scan(Body(items[k])).keys), false)
  {
    hide Scan, Body, Printed, ReadsBack;
    ScanAppend(text, Printed(items));
    PrintedHidesRest(items, k);
  }

  lemma {:induction false} PrintedHidesRest(items: seq<Item>, k: nat)
    requires k < |items| && !Scan(Body(items[k])).complete
    requires forall i :: 0 <= i < k ==> ReadsBack(items[i])
    ensures Scan(Printed(items)) == Scanned(Keys(items[..k]) + Scan(Body(items[k])).keys, false)
  {
    hide Scan, Body, Printed;
    PrintedFront(items);
    ScanAppend(Body(items[0]), Printed(items[1..]));
    var bad := Scan(Body(items[k])).keys;
    if k == 0 {
      assert Keys(items[..0]) + bad == bad;
    } else {
      var rest := items[1..];
      PrintedHidesRest(rest, k - 1);
      assert items[..k][1..] == rest[..k - 1];
      KeysFront(items[..k]);
      assert ReadsBack(items[0]);
      assert [KeyOf(items[0])] + (Keys(rest[..k - 1]) + bad) == Keys(items[..k]) + bad;
    }
  }

  lemma PrintedFront(items: seq<Item>)
    requires items != []
    ensures Printed(items) == Body(items[0]) + "\n" + Printed(items[1..])
  {
  }

  // ---- The comments of what is read ----

  /** The comment of a line, with its slashes. */
  function CommentOf(line: string): string {
    line[CommentAt(line)..]
  }

  /** The entries up to the first bad line, with their comments. */
  function ItemsOf(s: string): seq<Item>
    decreases |s|
  {
    if s == "" then []
    else
      var (line, rest) := ReadLine(s);
      match KindOf(line)
      case Blank => ItemsOf(rest)
      case Bad => []
      case Entry(key) => [Item(key.id, key.name, CommentOf(line))] + ItemsOf(rest)
  }

  lemma ItemsStep(s: string)
    requires s != ""
    ensures var (line, rest) := ReadLine(s);
            ItemsOf(s) == match KindOf(line)
                          case Blank => ItemsOf(rest)
                          case Bad => []
                          case Entry(key) => [Item(key.id, key.name, CommentOf(line))] + ItemsOf(rest)
  {
  }

  lemma NoItems()
    ensures ItemsOf("") == [] && Scan("") == Scanned([], true) && Keys([]) == []
  {
  }

  lemma RestShorter(s: string)
    requires s != ""
    ensures |ReadLine(s).1| < |s|
  {
  }

  lemma {:induction false} ItemsKeys(s: string)
    ensures Keys(ItemsOf(s)) == Scan(s).keys
    decreases |s|
  {
    hide Scan, ItemsOf, KindOf, ReadLine, CommentOf;
    if s == "" {
      NoItems();
    } else {
      RestShorter(s);
      var (line, rest) := ReadLine(s);
      ItemsStep(s);
      ScanStep(s);
      ItemsKeys(rest);
      if KindOf(line).Entry? {
        KeysFront(ItemsOf(s));
      } else if KindOf(line).Bad? {
        assert Keys([]) == [];
      }
    }
  }

  /** The comment of a printed entry, as far as its first line goes, is read back after two slashes and a space. */
  lemma CommentReadsBack(it: Item)
    requires TypeName(it.msg) && |Body(it)| < BUFFER && '\n' !in it.comma
    requires (it.comma == "" || it.comma[|it.comma| - 1] != '\r')
    ensures ItemsOf(Body(it)) == [it.(comma := "// " + it.comma)]
  {
    var head, tail := Assignment(it), " // " + it.comma;
    DigitsShort(it.id);
    assert Body(it) == head + tail;
    assert '\n' !in Body(it);
    NoNewline(Body(it));
    assert Body(it) == (head + " ") + ("// " + it.comma);
    CommentAfter(head + " ", "// " + it.comma);
    BodyFirst(it);
    ItemsStep(Body(it));
    assert ItemsOf("") == [];
  }

  lemma NoNewline(s: string)
    requires s != "" && '\n' !in s && |s| < BUFFER
    ensures ReadLine(s) == (s, "")
  {
  }
}
