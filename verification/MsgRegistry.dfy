/**
 The message-id registry: ids are read from a register file, new message types get the ids that follow, and the new
 ones are written back for the next run.

 A fatal exit is the result None. Declarations arrive as the parser lists them, over all files.
 */
module MsgRegistry {
  import opened Bytes
  import opened Options
  import opened Numerals
  import opened RegisterText

  datatype Spec = TypeSpec(name: string) | OtherSpec

  datatype Decl = Decl(specs: seq<Spec>, doc: string)

  /** A message type that has no id yet. */
  datatype Fresh = Fresh(name: string, doc: string)

  // ---- Specification ----

  /** The last entry for a name decides. */
  function Register(ids: map<string, U16>, keys: seq<Key>): map<string, U16> {
    if keys == [] then ids
    else var last := keys[|keys| - 1]; Register(ids, keys[..|keys| - 1])[last.name := last.id]
  }

  function Highest(max: U16, keys: seq<Key>): U16 {
    if keys == [] then max
    else
      var least, id := Highest(max, keys[..|keys| - 1]), keys[|keys| - 1].id;
      if id > least then id else least
  }

  predicate DistinctIds(keys: seq<Key>) {
    forall i, j :: 0 <= i < j < |keys| ==> keys[i].id != keys[j].id
  }

  predicate IsMessage(name: string) {
    "Message" <= name
  }

  /** Only the first type of a declaration is looked at, even if it declares several. */
  function FirstType(specs: seq<Spec>): Option<string> {
    if specs == [] then None
    else if specs[0].TypeSpec? then Some(specs[0].name)
    else FirstType(specs[1..])
  }

  predicate IsNew(known: set<string>, d: Decl) {
    var name := FirstType(d.specs);
    name.Some? && IsMessage(name.value) && name.value !in known
  }

  function FreshOf(known: set<string>, decls: seq<Decl>): seq<Fresh>
    decreases |decls|
  {
    if decls == [] then []
    else if IsNew(known, decls[0]) then
      var name := FirstType(decls[0].specs).value;
      [Fresh(name, decls[0].doc)] + FreshOf(known + {name}, decls[1..])
    else FreshOf(known, decls[1..])
  }

  /** Ids follow the highest one, and wrap at sixteen bits. */
  function NewId(max: U16, i: nat): U16 {
    ToU16(max + 1 + i)
  }

  function Numbered(max: U16, news: seq<Fresh>): (r: seq<Item>)
    ensures |r| == |news|
    ensures forall i :: 0 <= i < |news| ==> r[i] == Item(NewId(max, i), news[i].name, news[i].doc)
  {
    seq(|news|, i requires 0 <= i < |news| => Item(NewId(max, i), news[i].name, news[i].doc))
  }

  function Names(keys: seq<Key>): set<string> {
    set k | k in keys :: k.name
  }

  /** What a run over this file assigns. */
  function NewItems(text: string, decls: seq<Decl>): seq<Item> {
    var keys := Scan(text).keys;
    Numbered(Highest(0, keys), FreshOf(Names(keys), decls))
  }

  function RunOf(text: string, decls: seq<Decl>): Option<string> {
    if DistinctIds(Scan(text).keys) then Some(Appended(text, NewItems(text, decls))) else None
  }

  // ---- The generator ----

  function Split(s: string, c: char): (parts: seq<string>)
    ensures parts != []
    decreases |s|
  {
    var at := Index(s, c);
    if at == |s| then [s] else [s[..at]] + Split(s[at + 1..], c)
  }

  lemma SplitInTwo(s: string, c: char)
    ensures var at := Index(s, c);
            && (|Split(s, c)| == 2 <==> at < |s| && c !in s[at + 1..])
            && (|Split(s, c)| == 2 ==> Split(s, c) == [s[..at], s[at + 1..]])
  {
    var at := Index(s, c);
    if at < |s| {
      var rest := s[at + 1..];
      assert Split(s, c) == [s[..at]] + Split(rest, c);
      if Index(rest, c) == |rest| {
        assert rest[..|rest|] == rest;
      } else {
        assert rest[Index(rest, c)] == c;
      }
    }
  }

  class Generator {
    var gAllItems: seq<Item>
    var gAppendItems: seq<Item>
    var gItemMap: map<string, U16>
    var gMaxMsgId: U16

    constructor ()
      ensures gAllItems == [] && gAppendItems == [] && gItemMap == map[] && gMaxMsgId == 0
    {
      gAllItems, gAppendItems, gItemMap, gMaxMsgId := [], [], map[], 0;
    }

    /** Reads the entries up to the first bad line; fails on an id that occurs twice among them. */
    method LoadRegisterFile(text: string) returns (ok: bool)
      modifies this
      ensures ok == DistinctIds(Scan(text).keys)
      ensures gAppendItems == old(gAppendItems)
      ensures ok ==> gAllItems == old(gAllItems) + ItemsOf(text)
      ensures ok ==> gItemMap == Register(old(gItemMap), Scan(text).keys)
      ensures ok ==> gMaxMsgId == Highest(old(gMaxMsgId), Scan(text).keys)
    {
      hide Scan, KindOf, ReadLine, HasId, DistinctIds, Loaded, ItemsOf, CommentOf;
      var idMap: map<U16, string> := map[];
      var ahead := text;
      ghost var read: seq<Key> := [];
      NothingRead(text, gAllItems, gItemMap, gMaxMsgId);
      while ahead != ""
        invariant Scan(text) == AndThen(Scanned(read, true), Scan(ahead))
        invariant DistinctIds(read) && forall id :: id in idMap <==> HasId(read, id)
        invariant gAppendItems == old(gAppendItems)
        invariant gAllItems + ItemsOf(ahead) == old(gAllItems) + ItemsOf(text)
        invariant Loaded(read, old(gAllItems), old(gItemMap), old(gMaxMsgId), gAllItems, gItemMap, gMaxMsgId)
        decreases |ahead|
      {
        ScanStep(ahead);
        ItemsStep(ahead);
        RestShorter(ahead);
        var (s, rest) := ReadLine(ahead);
        ahead := rest;
        var kind, commaStr := ParseLine(s);
        if kind.Blank? {
          AndThenAssociative(Scanned(read, true), Scanned([], true), Scan(ahead));
          continue;
        }
        if kind.Bad? {
          assert gAllItems + [] == gAllItems;
          AllLoaded(read, old(gAllItems), old(gItemMap), old(gMaxMsgId), gAllItems, gItemMap, gMaxMsgId);
          return true;
        }
        var key := kind.key;
        var id, msgStr := key.id, key.name;
        AndThenAssociative(Scanned(read, true), Scanned([key], true), Scan(ahead));
        if id in idMap {
          RepeatedId(read, key, Scan(ahead).keys);
          return false;
        }
        HasIdSnoc(read, key);
        OneMoreLoaded(read, old(gAllItems), old(gItemMap), old(gMaxMsgId), gAllItems, gItemMap, gMaxMsgId,
                      Item(id, msgStr, commaStr));
        idMap := idMap[id := msgStr];
        assert gAllItems + ([Item(id, msgStr, commaStr)] + ItemsOf(ahead))
            == gAllItems + [Item(id, msgStr, commaStr)] + ItemsOf(ahead);
        gAllItems := gAllItems + [Item(id, msgStr, commaStr)];
        gItemMap := gItemMap[msgStr := id];
        if id > gMaxMsgId {
          gMaxMsgId := id;
        }
        read := read + [key];
      }
      ScanEmpty();
      NoItems();
      assert gAllItems + [] == gAllItems;
      AllLoaded(read, old(gAllItems), old(gItemMap), old(gMaxMsgId), gAllItems, gItemMap, gMaxMsgId);
      return true;
    }

    /** Takes one line apart. */
    static method ParseLine(s: string) returns (kind: Kind, commaStr: string)
      ensures kind == KindOf(s) && commaStr == CommentOf(s)
    {
      hide KindOf, TrimSpace, IdOf, ToLower, Index, Split;
      commaStr := "";
      var idx := CommentAt(s);
      if idx < |s| {
        commaStr := s[idx..];
      }
      var line := TrimSpace(s[..idx]);
      KindOfLine(s);
      if line == "" {
        return Blank, commaStr;
      }
      var its := Split(line, '=');
      if |its| != 2 {
        return Bad, commaStr;
      }
      return Entry(Key(TrimSpace(its[0]), IdOf(ToLower(TrimSpace(its[1]))))), commaStr;
    }

    /** Numbers the message types that are not registered yet, in the order of their declarations. */
    method LoadProtoFile(decls: seq<Decl>)
      modifies this
      ensures var news := FreshOf(old(gItemMap).Keys, decls);
              var items := Numbered(old(gMaxMsgId), news);
              && gAllItems == old(gAllItems) + items
              && gAppendItems == old(gAppendItems) + items
              && gItemMap == Register(old(gItemMap), Keys(items))
              && gMaxMsgId == ToU16(old(gMaxMsgId) + |news|)
    {
      hide FreshOf, Numbered, Register, Keys, FirstType;
      ghost var news: seq<Fresh> := [];
      NoneNumbered(gMaxMsgId, gItemMap);
      assert decls[0..] == decls;
      for i := 0 to |decls|
        invariant news + FreshOf(gItemMap.Keys, decls[i..]) == FreshOf(old(gItemMap).Keys, decls)
        invariant gAllItems == old(gAllItems) + Numbered(old(gMaxMsgId), news)
        invariant gAppendItems == old(gAppendItems) + Numbered(old(gMaxMsgId), news)
        invariant gItemMap == Register(old(gItemMap), Keys(Numbered(old(gMaxMsgId), news)))
        invariant gMaxMsgId == ToU16(old(gMaxMsgId) + |news|)
      {
        var d := decls[i];
        FreshStep(gItemMap.Keys, decls, i, news);
        var msgName := FindType(d.specs);
        if msgName.Some? && IsMessage(msgName.value) && msgName.value !in gItemMap {
          gMaxMsgId := ToU16(gMaxMsgId + 1);
          var it := Item(gMaxMsgId, msgName.value, d.doc);
          OneMoreNumbered(old(gMaxMsgId), news, Fresh(msgName.value, d.doc), old(gItemMap));
          gAllItems := gAllItems + [it];
          gAppendItems := gAppendItems + [it];
          ghost var known := gItemMap.Keys;
          gItemMap := gItemMap[it.msg := it.id];
          assert gItemMap.Keys == known + {it.msg};
          news := news + [Fresh(msgName.value, d.doc)];
        }
      }
      FreshOfNone(gItemMap.Keys);
      assert decls[|decls|..] == [] && news + [] == news;
    }

    /** The loop over the parts of one declaration: it ends at the first type. */
    static method FindType(specs: seq<Spec>) returns (name: Option<string>)
      ensures name == FirstType(specs)
    {
      for j := 0 to |specs|
        invariant FirstType(specs) == FirstType(specs[j..])
      {
        if specs[j].TypeSpec? {
          return Some(specs[j].name);
        }
      }
      return None;
    }

    /** The register file after the new items were appended to it. */
    method WriterNewProto(text: string) returns (file: string)
      ensures file == Appended(text, gAppendItems)
    {
      if |gAppendItems| == 0 {
        return text;
      }
      file := text + "\n";
      for i := 0 to |gAppendItems|
        invariant file + Printed(gAppendItems[i..]) == Appended(text, gAppendItems)
      {
        var it := gAppendItems[i];
        assert gAppendItems[i..][1..] == gAppendItems[i + 1..];
        PrintedFront(gAppendItems[i..]);
        file := file + (it.msg + " = 0x" + Digits(it.id, 16) + " // " + it.comma + "\n");
      }
    }
  }

  /** A whole run: load, number, write back. */
  method Run(text: string, decls: seq<Decl>) returns (file: Option<string>)
    ensures file == RunOf(text, decls)
  {
    hide Scan, Register, FreshOf, Highest, Appended, DistinctIds, Numbered, Keys, Names;
    var g := new Generator();
    var ok := g.LoadRegisterFile(text);
    if !ok {
      return None;
    }
    RegisterNames(map[], Scan(text).keys);
    assert g.gItemMap.Keys == Names(Scan(text).keys);
    g.LoadProtoFile(decls);
    assert g.gAppendItems == NewItems(text, decls);
    var written := g.WriterNewProto(text);
    file := Some(written);
  }

  // ---- Steps of the methods ----

  predicate HasId(keys: seq<Key>, id: U16) {
    exists k :: k in keys && k.id == id
  }

  /** Reading these entries took the generator's state from the first three values to the last three. */
  predicate Loaded(read: seq<Key>, items0: seq<Item>, ids0: map<string, U16>, max0: U16,
                   items: seq<Item>, ids: map<string, U16>, max: U16) {
    Keys(items) == Keys(items0) + read && ids == Register(ids0, read) && max == Highest(max0, read)
  }

  lemma NothingRead(text: string, items: seq<Item>, ids: map<string, U16>, max: U16)
    ensures Scan(text) == AndThen(Scanned([], true), Scan(text))
    ensures DistinctIds([]) && (forall id :: !HasId([], id)) && Loaded([], items, ids, max, items, ids, max)
  {
  }

  lemma OneMoreLoaded(read: seq<Key>, items0: seq<Item>, ids0: map<string, U16>, max0: U16,
                      items: seq<Item>, ids: map<string, U16>, max: U16, it: Item)
    requires Loaded(read, items0, ids0, max0, items, ids, max)
    ensures Loaded(read + [KeyOf(it)], items0, ids0, max0,
                   items + [it], ids[it.msg := it.id], if it.id > max then it.id else max)
  {
    KeysSnoc(items, it);
    RegisterSnoc(ids0, read, KeyOf(it));
    HighestSnoc(max0, read, KeyOf(it));
    hide Keys, Register, Highest;
    assert Keys(items0) + read + [KeyOf(it)] == Keys(items0) + (read + [KeyOf(it)]);
  }

  lemma AllLoaded(read: seq<Key>, items0: seq<Item>, ids0: map<string, U16>, max0: U16,
                  items: seq<Item>, ids: map<string, U16>, max: U16)
    requires Loaded(read, items0, ids0, max0, items, ids, max)
    ensures read + [] == read && Keys(items) == Keys(items0) + read
    ensures ids == Register(ids0, read) && max == Highest(max0, read)
  {
  }

  lemma HighestSnoc(max: U16, keys: seq<Key>, key: Key)
    ensures Highest(max, keys + [key]) == if key.id > Highest(max, keys) then key.id else Highest(max, keys)
  {
    assert (keys + [key])[..|keys|] == keys;
  }

  lemma HasIdSnoc(keys: seq<Key>, key: Key)
    ensures forall id :: HasId(keys + [key], id) <==> HasId(keys, id) || id == key.id
    ensures DistinctIds(keys + [key]) <==> DistinctIds(keys) && !HasId(keys, key.id)
  {
    var all := keys + [key];
    assert key in all;
    forall id | HasId(keys, id)
      ensures HasId(all, id)
    {
      var k :| k in keys && k.id == id;
      assert k in all;
    }
    assert forall i :: 0 <= i < |keys| ==> all[i] == keys[i];
    assert DistinctIds(all) ==> forall i :: 0 <= i < |keys| ==> all[i].id != all[|keys|].id;
  }

  lemma RepeatedId(keys: seq<Key>, key: Key, more: seq<Key>)
    requires HasId(keys, key.id)
    ensures !DistinctIds(keys + [key] + more)
  {
    var all := keys + [key] + more;
    var k :| k in keys && k.id == key.id;
    var i :| 0 <= i < |keys| && keys[i] == k;
    assert all[i].id == all[|keys|].id;
  }

  lemma KindOfLine(s: string)
    ensures var text := TrimSpace(s[..CommentAt(s)]);
            var its := Split(text, '=');
            KindOf(s) == if text == "" then Blank
                         else if |its| != 2 then Bad
                         else Entry(Key(TrimSpace(its[0]), IdOf(ToLower(TrimSpace(its[1])))))
  {
    SplitInTwo(TrimSpace(s[..CommentAt(s)]), '=');
  }

  lemma KeysSnoc(items: seq<Item>, it: Item)
    ensures Keys(items + [it]) == Keys(items) + [KeyOf(it)]
  {
  }

  lemma NumberedSnoc(max: U16, news: seq<Fresh>, f: Fresh)
    ensures Numbered(max, news + [f]) == Numbered(max, news) + [Item(NewId(max, |news|), f.name, f.doc)]
  {
  }

  lemma RegisterSnoc(ids: map<string, U16>, keys: seq<Key>, key: Key)
    ensures Register(ids, keys + [key]) == Register(ids, keys)[key.name := key.id]
  {
    assert (keys + [key])[..|keys|] == keys;
  }

  lemma NoneNumbered(max: U16, ids: map<string, U16>)
    ensures Numbered(max, []) == [] && Register(ids, Keys([])) == ids
  {
  }

  lemma OneMoreNumbered(max: U16, news: seq<Fresh>, f: Fresh, ids: map<string, U16>)
    ensures var it := Item(ToU16(ToU16(max + |news|) + 1), f.name, f.doc);
            && Numbered(max, news + [f]) == Numbered(max, news) + [it]
            && Register(ids, Keys(Numbered(max, news + [f])))
                == Register(ids, Keys(Numbered(max, news)))[it.msg := it.id]
            && it.id == ToU16(max + (|news| + 1))
  {
    hide Numbered, Keys, Register;
    var it := Item(NewId(max, |news|), f.name, f.doc);
    NumberedSnoc(max, news, f);
    KeysSnoc(Numbered(max, news), it);
    RegisterSnoc(ids, Keys(Numbered(max, news)), KeyOf(it));
  }

  lemma FreshStep(known: set<string>, decls: seq<Decl>, i: nat, news: seq<Fresh>)
    requires i < |decls|
    ensures news + FreshOf(known, decls[i..])
            == if IsNew(known, decls[i]) then
              var name := FirstType(decls[i].specs).value;
              news + [Fresh(name, decls[i].doc)] + FreshOf(known + {name}, decls[i + 1..])
            else news + FreshOf(known, decls[i + 1..])
  {
    hide FreshOf;
    FreshFront(known, decls[i..]);
    assert decls[i..][1..] == decls[i + 1..];
  }

  lemma FreshOfNone(known: set<string>)
    ensures FreshOf(known, []) == []
  {
  }

  lemma FreshFront(known: set<string>, decls: seq<Decl>)
    requires decls != []
    ensures FreshOf(known, decls) == if IsNew(known, decls[0]) then
              var name := FirstType(decls[0].specs).value;
              [Fresh(name, decls[0].doc)] + FreshOf(known + {name}, decls[1..])
            else FreshOf(known, decls[1..])
  {
  }

  lemma {:induction false} RegisterNames(ids: map<string, U16>, keys: seq<Key>)
    ensures Register(ids, keys).Keys == ids.Keys + Names(keys)
  {
    if keys != [] {
      var front, last := keys[..|keys| - 1], keys[|keys| - 1];
      RegisterNames(ids, front);
      assert keys == front + [last];
      assert Names(keys) == Names(front) + {last.name};
    }
  }

  // ---- Ids ----

  lemma {:induction false} HighestBounds(max: U16, keys: seq<Key>)
    ensures max <= Highest(max, keys) && forall k :: k in keys ==> k.id <= Highest(max, keys)
    ensures Highest(max, keys) == max || HasId(keys, Highest(max, keys))
  {
    if keys != [] {
      HighestBounds(max, keys[..|keys| - 1]);
      assert keys == keys[..|keys| - 1] + [keys[|keys| - 1]];
    }
  }

  lemma DistinctConcat(a: seq<Key>, b: seq<Key>)
    ensures DistinctIds(a + b) <==> DistinctIds(a) && DistinctIds(b) && forall k :: k in b ==> !HasId(a, k.id)
  {
    var all := a + b;
    assert forall i :: 0 <= i < |a| ==> all[i] == a[i];
    assert forall j :: 0 <= j < |b| ==> all[|a| + j] == b[j];
    if DistinctIds(all) {
      forall k | k in b
        ensures !HasId(a, k.id)
      {
        var j :| 0 <= j < |b| && b[j] == k;
        assert all[|a| + j].id == k.id;
      }
      forall i, j | 0 <= i < j < |b|
        ensures b[i].id != b[j].id
      {
        assert all[|a| + i].id != all[|a| + j].id;
      }
    }
  }

  lemma NumberedDistinct(max: U16, news: seq<Fresh>)
    ensures DistinctIds(Keys(Numbered(max, news))) <==> |news| <= 0x1_0000
  {
    var keys := Keys(Numbered(max, news));
    assert forall i :: 0 <= i < |news| ==> keys[i].id == NewId(max, i);
    if |news| > 0x1_0000 {
      assert keys[0].id == keys[0x1_0000].id;
    }
  }

  /** The ids of old and new entries are pairwise distinct exactly if the old ones are, the new ones are not more than
      there are ids, and none of those handed out, after wrapping, is taken. */
  lemma DistinctIff(keys: seq<Key>, news: seq<Fresh>)
    ensures var max := Highest(0, keys);
            DistinctIds(keys + Keys(Numbered(max, news)))
            <==> DistinctIds(keys) && |news| <= 0x1_0000 && forall i :: 0 <= i < |news| ==> !HasId(keys, NewId(max, i))
  {
    hide Highest, NewId, DistinctIds, HasId;
    var max := Highest(0, keys);
    var added := Keys(Numbered(max, news));
    DistinctConcat(keys, added);
    NumberedDistinct(max, news);
    assert forall i :: 0 <= i < |news| ==> added[i] in added && added[i].id == NewId(max, i);
  }

  /** With enough ids left the new ones follow the highest old one, and nothing wraps. */
  lemma EnoughIds(keys: seq<Key>, news: seq<Fresh>)
    requires DistinctIds(keys) && Highest(0, keys) + |news| < 0x1_0000
    ensures var max := Highest(0, keys); var items := Numbered(max, news);
            && DistinctIds(keys + Keys(items))
            && forall i :: 0 <= i < |news| ==> items[i].id == max + 1 + i
  {
    hide Highest, DistinctIds;
    HighestBounds(0, keys);
    DistinctIff(keys, news);
  }

  /** Then the next run counts on where this one ended. */
  lemma HighestAfter(keys: seq<Key>, news: seq<Fresh>)
    requires DistinctIds(keys) && Highest(0, keys) + |news| < 0x1_0000
    ensures Highest(0, keys + Keys(Numbered(Highest(0, keys), news))) == Highest(0, keys) + |news|
  {
    var max := Highest(0, keys);
    var added := Keys(Numbered(max, news));
    HighestBounds(0, keys);
    HighestBounds(0, keys + added);
    EnoughIds(keys, news);
    hide Highest, DistinctIds, NewId;
    assert forall i :: 0 <= i < |news| ==> added[i].id == max + 1 + i;
    if news == [] {
      assert keys + added == keys;
    } else {
      assert added[|news| - 1] in keys + added;
    }
  }

  // ---- Names ----

  predicate DistinctNames(news: seq<Fresh>) {
    forall i, j :: 0 <= i < j < |news| ==> news[i].name != news[j].name
  }

  lemma {:induction false} FreshAreNew(known: set<string>, decls: seq<Decl>)
    ensures DistinctNames(FreshOf(known, decls))
    ensures forall f :: f in FreshOf(known, decls) ==> f.name !in known && IsMessage(f.name)
    decreases |decls|
  {
    if decls != [] {
      FreshAreNew(known, decls[1..]);
      if IsNew(known, decls[0]) {
        FreshAreNew(known + {FirstType(decls[0].specs).value}, decls[1..]);
      }
    }
  }

  /** Once every new type is known, nothing is new. */
  lemma {:induction false} NothingFresh(known: set<string>, more: set<string>, decls: seq<Decl>)
    requires forall f :: f in FreshOf(known, decls) ==> f.name in more
    requires known <= more
    ensures FreshOf(more, decls) == []
    decreases |decls|
  {
    if decls != [] {
      if IsNew(known, decls[0]) {
        var name := FirstType(decls[0].specs).value;
        assert FreshOf(known, decls)[0].name == name;
        assert forall f :: f in FreshOf(known + {name}, decls[1..]) ==> f in FreshOf(known, decls);
        NothingFresh(known + {name}, more, decls[1..]);
      } else {
        NothingFresh(known, more, decls[1..]);
      }
    }
  }

  /** The id of a registered name is not changed by registering other names. */
  lemma {:induction false} RegisterKeeps(ids: map<string, U16>, keys: seq<Key>, name: string)
    requires name in ids && name !in Names(keys)
    ensures name in Register(ids, keys) && Register(ids, keys)[name] == ids[name]
  {
    if keys != [] {
      var front := keys[..|keys| - 1];
      assert keys[|keys| - 1] in keys;
      assert Names(front) <= Names(keys);
      RegisterKeeps(ids, front, name);
    }
  }

  lemma {:induction false} RegisterAppend(ids: map<string, U16>, a: seq<Key>, b: seq<Key>)
    ensures Register(ids, a + b) == Register(Register(ids, a), b)
  {
    if b == [] {
      assert a + b == a;
    } else {
      assert (a + b)[..|a + b| - 1] == a + b[..|b| - 1];
      RegisterAppend(ids, a, b[..|b| - 1]);
    }
  }

  /** No run changes the id of a registered name, not even one that runs out of ids. */
  lemma ExistingIdsStay(text: string, decls: seq<Decl>, name: string)
    requires name in Names(Scan(text).keys)
    ensures var before := Register(map[], Scan(text).keys);
            var after := Register(map[], Scan(text).keys + Keys(NewItems(text, decls)));
            name in before && name in after && after[name] == before[name]
  {
    var keys := Scan(text).keys;
    var news := FreshOf(Names(keys), decls);
    var added := Keys(NewItems(text, decls));
    RegisterNames(map[], keys);
    RegisterAppend(map[], keys, added);
    FreshAreNew(Names(keys), decls);
    forall k | k in added
      ensures k.name != name
    {
      var i :| 0 <= i < |added| && added[i] == k;
      assert news[i] in news;
    }
    RegisterKeeps(Register(map[], keys), added, name);
  }

  // ---- Which types are numbered ----

  /** The first type that a declaration declares, whatever else stands before it. */
  predicate Declares(d: Decl, name: string) {
    exists j :: 0 <= j < |d.specs| && d.specs[j] == TypeSpec(name) && forall i :: 0 <= i < j ==> d.specs[i].OtherSpec?
  }

  lemma {:induction false} FirstTypeIff(specs: seq<Spec>, doc: string, name: string)
    ensures FirstType(specs) == Some(name) <==> Declares(Decl(specs, doc), name)
  {
    if specs != [] {
      var rest := specs[1..];
      FirstTypeIff(rest, doc, name);
      if specs[0].OtherSpec? {
        if Declares(Decl(rest, doc), name) {
          var j :| 0 <= j < |rest| && rest[j] == TypeSpec(name) && forall i :: 0 <= i < j ==> rest[i].OtherSpec?;
          assert specs[j + 1] == TypeSpec(name);
          assert forall i :: 0 <= i < j + 1 ==> specs[i].OtherSpec?;
        }
        if Declares(Decl(specs, doc), name) {
          var j :| 0 <= j < |specs| && specs[j] == TypeSpec(name) && forall i :: 0 <= i < j ==> specs[i].OtherSpec?;
          assert rest[j - 1] == TypeSpec(name);
          assert forall i :: 0 <= i < j - 1 ==> rest[i] == specs[i + 1];
        }
      }
    }
  }

  /** The d-th declaration is the first to declare a type of this name. */
  predicate FirstDeclaredAt(decls: seq<Decl>, d: nat, name: string) {
    d < |decls| && Declares(decls[d], name) && forall e :: 0 <= e < d ==> !Declares(decls[e], name)
  }

  /** A name is numbered exactly if its first seven characters are "Message", it is not known, and it is the first type
      of some declaration. */
  lemma FreshIff(known: set<string>, decls: seq<Decl>, name: string)
    ensures (exists f :: f in FreshOf(known, decls) && f.name == name)
            <==> && name !in known && |name| >= 7 && name[..7] == "Message"
                 && exists d :: 0 <= d < |decls| && Declares(decls[d], name)
  {
    var at := FreshAt(known, decls);
    var news := FreshOf(known, decls);
    if f :| f in news && f.name == name {
      var i :| 0 <= i < |news| && news[i] == f;
      assert Placed(known, decls, at[i], news[i]);
    }
    if d :| 0 <= d < |decls| && Declares(decls[d], name) {
      if name !in known && |name| >= 7 && name[..7] == "Message" {
        FreshHas(known, decls, d, name);
      }
    }
  }

  /** f is the type that the d-th declaration is the first to declare, with its doc comment. */
  predicate Placed(known: set<string>, decls: seq<Decl>, d: nat, f: Fresh) {
    && FirstDeclaredAt(decls, d, f.name) && decls[d].doc == f.doc
    && f.name !in known && |f.name| >= 7 && f.name[..7] == "Message"
  }

  predicate Ordered(known: set<string>, decls: seq<Decl>, at: seq<nat>, news: seq<Fresh>) {
    && |at| == |news|
    && (forall i, j :: 0 <= i < j < |at| ==> at[i] < at[j])
    && forall i :: 0 <= i < |at| ==> Placed(known, decls, at[i], news[i])
  }

  /** The numbered types come in the order of their first declarations, each with the doc comment of that one. */
  lemma {:induction false} FreshAt(known: set<string>, decls: seq<Decl>) returns (at: seq<nat>)
    ensures Ordered(known, decls, at, FreshOf(known, decls))
    decreases |decls|
  {
    if decls == [] {
      at := [];
    } else {
      hide Ordered, FreshOf, Placed;
      var d, rest := decls[0], decls[1..];
      FreshFront(known, decls);
      if IsNew(known, d) {
        var name := FirstType(d.specs).value;
        var more := known + {name};
        var later := FreshAt(more, rest);
        at := ShiftAll(known, more, decls, later, FreshOf(more, rest));
        FirstIs(decls, name);
        at := PlaceFirst(known, decls, at, FreshOf(more, rest), Fresh(name, d.doc));
      } else {
        var later := FreshAt(known, rest);
        at := ShiftAll(known, known, decls, later, FreshOf(known, rest));
      }
    }
  }

  lemma PlaceFirst(known: set<string>, decls: seq<Decl>, at: seq<nat>, news: seq<Fresh>, f: Fresh)
    returns (all: seq<nat>)
    requires Ordered(known, decls, at, news) && (forall i :: 0 <= i < |at| ==> at[i] > 0)
    requires FirstDeclaredAt(decls, 0, f.name) && decls[0].doc == f.doc && IsMessage(f.name) && f.name !in known
    ensures Ordered(known, decls, all, [f] + news)
  {
    all := [0] + at;
    assert Placed(known, decls, 0, f);
    hide FirstDeclaredAt;
  }

  lemma ShiftAll(known: set<string>, more: set<string>, decls: seq<Decl>, later: seq<nat>, news: seq<Fresh>)
    returns (at: seq<nat>)
    requires decls != [] && Ordered(more, decls[1..], later, news)
    requires more == if IsNew(known, decls[0]) then known + {FirstType(decls[0].specs).value} else known
    ensures Ordered(known, decls, at, news) && forall i :: 0 <= i < |at| ==> at[i] > 0
  {
    at := seq(|later|, i requires 0 <= i < |later| => later[i] + 1);
    forall i | 0 <= i < |later|
      ensures Placed(known, decls, at[i], news[i])
    {
      assert Placed(more, decls[1..], later[i], news[i]);
      NotFirst(known, more, decls[0], news[i].name);
      Shifted(decls, later[i], news[i].name);
    }
    hide Placed;
  }

  lemma FirstIs(decls: seq<Decl>, name: string)
    requires decls != [] && FirstType(decls[0].specs) == Some(name)
    ensures FirstDeclaredAt(decls, 0, name)
  {
    FirstTypeIff(decls[0].specs, decls[0].doc, name);
  }

  /** A name that is new after a declaration is not the one it declares. */
  lemma NotFirst(known: set<string>, more: set<string>, d: Decl, name: string)
    requires more == if IsNew(known, d) then known + {FirstType(d.specs).value} else known
    requires name !in more && |name| >= 7 && name[..7] == "Message"
    ensures !Declares(d, name)
  {
    FirstTypeIff(d.specs, d.doc, name);
    assert IsMessage(name);
  }

  lemma Shifted(decls: seq<Decl>, d: nat, name: string)
    requires decls != [] && FirstDeclaredAt(decls[1..], d, name) && !Declares(decls[0], name)
    ensures FirstDeclaredAt(decls, d + 1, name)
  {
    hide Declares;
    forall e | 0 <= e < d + 1
      ensures !Declares(decls[e], name)
    {
      if e > 0 {
        assert decls[e] == decls[1..][e - 1];
      }
    }
  }

  lemma {:induction false} FreshHas(known: set<string>, decls: seq<Decl>, d: nat, name: string)
    requires d < |decls| && Declares(decls[d], name)
    requires name !in known && |name| >= 7 && name[..7] == "Message"
    ensures exists f :: f in FreshOf(known, decls) && f.name == name
    decreases |decls|
  {
    var first, rest := FirstType(decls[0].specs), decls[1..];
    FirstTypeIff(decls[0].specs, decls[0].doc, name);
    assert IsMessage(name);
    FreshFront(known, decls);
    hide FreshOf, Declares;
    if first == Some(name) {
      assert FreshOf(known, decls)[0].name == name;
    } else {
      assert d > 0 && decls[d] == rest[d - 1];
      var more := if IsNew(known, decls[0]) then known + {first.value} else known;
      FreshHas(more, rest, d - 1, name);
      var f :| f in FreshOf(more, rest) && f.name == name;
      assert f in FreshOf(known, decls);
    }
  }

  /** The id of a name is that of its last entry. */
  lemma {:induction false} LastEntryDecides(ids: map<string, U16>, keys: seq<Key>, i: nat)
    requires i < |keys| && forall j :: i < j < |keys| ==> keys[j].name != keys[i].name
    ensures keys[i].name in Register(ids, keys) && Register(ids, keys)[keys[i].name] == keys[i].id
  {
    var front := keys[..|keys| - 1];
    if i < |keys| - 1 {
      LastEntryDecides(ids, front, i);
    }
  }

  // ---- Write-back ----

  /** The file is clean for these declarations: read to its end without a repeated id, enough ids left, and every
      comment that is written with a new entry reads back. */
  predicate Clean(text: string, decls: seq<Decl>) {
    var keys := Scan(text).keys;
    var items := NewItems(text, decls);
    && Scan(text).complete && DistinctIds(keys) && Highest(0, keys) + |items| < 0x1_0000
    && forall it :: it in items ==> TypeName(it.msg) && ReadsBack(it)
  }

  /** After a run over a clean file, the next one reads the name-to-id map that this one ended with, assigns nothing
      and leaves the file as it is. */
  lemma SecondRunIdle(text: string, decls: seq<Decl>)
    requires Clean(text, decls)
    ensures RunOf(text, decls).Some?
    ensures var file := RunOf(text, decls).value;
            && Scan(file) == Scanned(Scan(text).keys + Keys(NewItems(text, decls)), true)
            && Register(map[], Scan(file).keys)
                == Register(Register(map[], Scan(text).keys), Keys(NewItems(text, decls)))
            && Highest(0, Scan(file).keys) == Highest(0, Scan(text).keys) + |NewItems(text, decls)|
            && NewItems(file, decls) == []
            && RunOf(file, decls) == Some(file)
  {
    hide Scan, Register, FreshOf, Highest, Appended, ReadsBack, TypeName;
    var keys := Scan(text).keys;
    var news := FreshOf(Names(keys), decls);
    var items := NewItems(text, decls);
    WrittenReadsBackIff(text, items);
    EnoughIds(keys, news);
    HighestAfter(keys, news);
    RegisterAppend(map[], keys, Keys(items));
    NamesAfter(keys, news);
    NothingFresh(Names(keys), Names(keys + Keys(items)), decls);
    NothingAppended(RunOf(text, decls).value);
  }

  lemma NothingAppended(text: string)
    ensures Appended(text, []) == text
  {
  }

  lemma NamesAfter(keys: seq<Key>, news: seq<Fresh>)
    ensures var after := Names(keys + Keys(Numbered(Highest(0, keys), news)));
            Names(keys) <= after && forall f :: f in news ==> f.name in after
  {
    var added := Keys(Numbered(Highest(0, keys), news));
    forall f | f in news
      ensures f.name in Names(keys + added)
    {
      var i :| 0 <= i < |news| && news[i] == f;
      assert (keys + added)[|keys| + i].name == f.name;
      assert (keys + added)[|keys| + i] in keys + added;
    }
  }

  /** Three message types, the first with a doc comment of two lines. */
  const DECLS := (
    Decl([TypeSpec("MessageA")], "x\ny\n"), Decl([TypeSpec("MessageB")], ""), Decl([TypeSpec("MessageC")], ""))

  /** A comment of two lines breaks this: the entry behind it is lost, and its id changes once another message type is
      declared before it. */
  lemma TwoLineCommentMovesIds()
    ensures var (a, b, c) := DECLS;
            var first := NewItems("", [a, b]);
            && first == [Item(1, "MessageA", "x\ny\n"), Item(2, "MessageB", "")]
            && NewItems(Appended("", first), [a, c, b]) == [Item(2, "MessageC", ""), Item(3, "MessageB", "")]
  {
    hide Scan, FreshOf, Appended, NewItems, Body, TypeName, ReadsBack, KeyOf;
    FirstItems();
    var first := [Item(1, "MessageA", "x\ny\n"), Item(2, "MessageB", "")];
    FirstScanned(first);
    SecondItems(Appended("", first));
  }

  /** Of the two entries written only the first is read. */
  lemma FirstScanned(items: seq<Item>)
    requires |items| == 2 && items[0] == Item(1, "MessageA", "x\ny\n")
    ensures Scan(Appended("", items)).keys == [Key("MessageA", 1)]
  {
    hide Scan, Appended, Body, TypeName, ReadsBack;
    ScanEmpty();
    NameIsType();
    TwoLineComment(items[0]);
    BadCommentHidesRest("", items, 0);
    assert Keys(items[..0]) == [];
  }

  lemma SecondItems(file: string)
    requires Scan(file).keys == [Key("MessageA", 1)]
    ensures var (a, b, c) := DECLS;
            NewItems(file, [a, c, b]) == [Item(2, "MessageC", ""), Item(3, "MessageB", "")]
  {
    hide Scan, FreshOf;
    ThreeDecls();
    var keys := Scan(file).keys;
    assert keys[..0] == [];
    assert Highest(0, keys[..0]) == 0;
    assert Names(keys) == {"MessageA"};
  }

  lemma FirstItems()
    ensures NewItems("", [DECLS.0, DECLS.1])
            == [Item(1, "MessageA", "x\ny\n"), Item(2, "MessageB", "")]
  {
    hide Scan, FreshOf;
    ScanEmpty();
    ThreeDecls();
    assert Names([]) == {};
  }

  lemma ThreeDecls()
    ensures var (a, b, c) := DECLS;
            && FreshOf({}, [a, b]) == [Fresh("MessageA", "x\ny\n"), Fresh("MessageB", "")]
            && FreshOf({"MessageA"}, [a, c, b]) == [Fresh("MessageC", ""), Fresh("MessageB", "")]
  {
    var (a, b, c) := DECLS;
    assert "MessageA"[7] == 'A' && "MessageB"[7] == 'B' && "MessageC"[7] == 'C';
    assert [a, b][1..] == [b] && [b][1..] == [];
    assert [a, c, b][1..] == [c, b] && [c, b][1..] == [b];
    FreshOne({"MessageA"}, b, []);
    FreshOne({}, a, [b]);
    FreshOne({"MessageA", "MessageC"}, b, []);
    FreshOne({"MessageA"}, c, [b]);
    assert {} + {"MessageA"} == {"MessageA"};
    assert {"MessageA"} + {"MessageC"} == {"MessageA", "MessageC"};
  }

  lemma FreshOne(known: set<string>, d: Decl, more: seq<Decl>)
    requires |d.specs| == 1 && d.specs[0].TypeSpec? && IsMessage(d.specs[0].name) && d.specs[0].name !in known
    ensures FreshOf(known, [d] + more) == [Fresh(d.specs[0].name, d.doc)] + FreshOf(known + {d.specs[0].name}, more)
  {
    FreshFront(known, [d] + more);
    assert ([d] + more)[1..] == more;
  }

  lemma NameIsType()
    ensures TypeName("MessageA")
  {
  }

  lemma TwoLineComment(it: Item)
    requires TypeName(it.msg) && it.comma == "x\ny\n"
    ensures Scan(Body(it)) == Scanned([KeyOf(it)], false)
  {
    var head, s := Assignment(it) + " // ", Body(it);
    DigitsShort(it.id);
    assert '\n' !in head;
    assert s == head + it.comma;
    assert Index(it.comma, '\n') == 1;
    IndexBehind(head, it.comma, '\n');
    assert ReadLine(s).1 == "y\n";
    BodyFirst(it);
    ScanStep(s);
    hide Body, Index, Assignment;
    ScanWord();
  }

  lemma ScanWord()
    ensures Scan("y\n") == Scanned([], false)
  {
    var s := "y\n";
    assert Index(s, '\n') == 1 && s[..1] == "y";
    WordIsBad();
  }

  lemma WordIsBad()
    ensures KindOf("y") == Bad
  {
    assert CommentAt("y") == 1;
    assert "y"[..1] == "y";
    assert TrimSpace("y") == "y";
    assert Index("y", '=') == 1;
  }
}
