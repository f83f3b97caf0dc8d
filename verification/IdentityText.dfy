/** The canonical text can be read back, so it identifies a value up to what it is meant to
    forget; and an input hash identifies a unit and its members. */
module IdentityText {
  import opened Sequences
  import opened Sorting
  import opened JsonText
  import opened TextOrder
  import opened CanonicalJson
  import opened Numbers

  /** The canonical text of a value reads back as its normal form, whatever follows it. */
  lemma {:induction false} RoundTrip(v: Value, rest: Text)
    requires !v.Undefined? && Ends(rest)
    ensures ReadValue(Canonical(v) + rest) == Some(Read(Normalize(v), rest))
    decreases v, 1
  {
    hide ReadValue, Quote, Decimal, Members, NormalizeItems, NormalizeMembers, CanonicalItems, CanonicalMembers;
    match v
    case Null => WordRoundTrip(v, rest);
    case Bool(_) => WordRoundTrip(v, rest);
    case Number(n) => NumberRoundTrip(n, rest);
    case Str(text) => TextRoundTrip(text, rest);
    case Array(items) => ArrayRoundTrip(v, rest);
    case Object(entries) => ObjectRoundTrip(v, rest);
  }

  lemma TextRoundTrip(text: Text, rest: Text)
    ensures ReadValue(Quote(text) + rest) == Some(Read(Str(text), rest))
  {
    hide Escape, ReadString, ReadItems, ReadMembers, ReadDigits;
    QuotedRoundTrip(text, rest);
    assert Quote(text) + rest != [];
  }

  lemma ReadArray(inner: Text, items: seq<Value>, rest: Text)
    requires inner != [] && inner[0] != CLOSE_BRACKET && ReadItems(inner) == Some(Read(items, rest))
    ensures ReadValue([OPEN_BRACKET] + inner) == Some(Read(Array(items), rest))
  {
    hide ReadItems, ReadMembers, ReadString, ReadDigits;
    assert ([OPEN_BRACKET] + inner)[1..] == inner;
  }

  lemma ReadObject(inner: Text, members: seq<Entry>, rest: Text)
    requires inner != [] && inner[0] != CLOSE_BRACE && ReadMembers(inner) == Some(Read(members, rest))
    ensures ReadValue([OPEN_BRACE] + inner) == Some(Read(Object(members), rest))
  {
    hide ReadItems, ReadMembers, ReadString, ReadDigits;
    assert ([OPEN_BRACE] + inner)[1..] == inner;
  }

  lemma ReadEmpty(rest: Text)
    ensures ReadValue([OPEN_BRACKET, CLOSE_BRACKET] + rest) == Some(Read(Array([]), rest))
    ensures ReadValue([OPEN_BRACE, CLOSE_BRACE] + rest) == Some(Read(Object([]), rest))
  {
    hide ReadItems, ReadMembers, ReadString, ReadDigits;
    assert ([OPEN_BRACKET, CLOSE_BRACKET] + rest)[2..] == rest;
    assert ([OPEN_BRACE, CLOSE_BRACE] + rest)[2..] == rest;
  }

  lemma {:induction false} ArrayRoundTrip(v: Value, rest: Text)
    requires v.Array?
    ensures ReadValue(Canonical(v) + rest) == Some(Read(Normalize(v), rest))
    decreases v, 0, |v.items| + 1
  {
    hide ReadItems, ReadValue, NormalizeItems;
    ReadEmpty(rest);
    if Trimmed(v.items) == [] {
      assert CanonicalItems(v.items, v) == [];
      assert Canonical(v) == [OPEN_BRACKET, CLOSE_BRACKET] && Normalize(v) == Array([]);
    } else {
      var inner := CanonicalItems(v.items, v) + ([CLOSE_BRACKET] + rest);
      ItemsRoundTrip(v.items, v, rest);
      ItemsStart(v.items, v, [CLOSE_BRACKET] + rest);
      ReadArray(inner, NormalizeItems(v.items, v), rest);
      assert Canonical(v) + rest == [OPEN_BRACKET] + inner;
    }
  }

  lemma {:induction false} ObjectRoundTrip(v: Value, rest: Text)
    requires v.Object?
    ensures ReadValue(Canonical(v) + rest) == Some(Read(Normalize(v), rest))
    decreases v, 0, |Members(v.entries)| + 1
  {
    hide ReadMembers, ReadValue, Members;
    ReadEmpty(rest);
    var members := Members(v.entries);
    if members == [] {
      assert Canonical(v) == [OPEN_BRACE, CLOSE_BRACE];
      assert NormalizeMembers(members, v) == [];
    } else {
      var inner := CanonicalMembers(members, v) + ([CLOSE_BRACE] + rest);
      MembersRoundTrip(members, v, rest);
      MembersStart(members, v, [CLOSE_BRACE] + rest);
      ReadObject(inner, NormalizeMembers(members, v), rest);
      assert Canonical(v) + rest == [OPEN_BRACE] + inner;
    }
  }

  lemma ItemsStart(items: seq<Value>, parent: Value, rest: Text)
    requires forall i | 0 <= i < |items| :: items[i] < parent
    requires Trimmed(items) != []
    ensures var t := CanonicalItems(items, parent) + rest; t != [] && t[0] != CLOSE_BRACKET
  {
    if !items[0].Undefined? {
      FirstOf(items[0]);
    }
  }

  lemma MembersStart(members: seq<Entry>, parent: Value, rest: Text)
    requires forall e | e in members :: e.value < parent
    requires members != []
    ensures var t := CanonicalMembers(members, parent) + rest; t != [] && t[0] == QUOTE
  {
  }

  lemma ReadLastItem(t: Text, item: Value, rest: Text)
    requires ReadItem(t) == Some(Read(item, [CLOSE_BRACKET] + rest))
    ensures ReadItems(t) == Some(Read([item], rest))
  {
    hide ReadItem;
    assert ([CLOSE_BRACKET] + rest)[1..] == rest;
  }

  lemma ReadMoreItems(t: Text, item: Value, others: Text, items: seq<Value>, rest: Text)
    requires ReadItem(t) == Some(Read(item, [COMMA] + others))
    requires ReadItems(others) == Some(Read(items, rest))
    ensures ReadItems(t) == Some(Read([item] + items, rest))
  {
    hide ReadItem;
    assert ([COMMA] + others)[1..] == others;
  }

  lemma ReadLastMember(t: Text, member: Entry, rest: Text)
    requires ReadMember(t) == Some(Read(member, [CLOSE_BRACE] + rest))
    ensures ReadMembers(t) == Some(Read([member], rest))
  {
    hide ReadMember;
    assert ([CLOSE_BRACE] + rest)[1..] == rest;
  }

  lemma ReadMoreMembers(t: Text, member: Entry, others: Text, members: seq<Entry>, rest: Text)
    requires ReadMember(t) == Some(Read(member, [COMMA] + others))
    requires ReadMembers(others) == Some(Read(members, rest))
    ensures ReadMembers(t) == Some(Read([member] + members, rest))
  {
    hide ReadMember;
    assert ([COMMA] + others)[1..] == others;
  }

  lemma {:induction false} ItemRoundTrip(item: Value, rest: Text)
    requires rest != [] && (rest[0] == COMMA || rest[0] == CLOSE_BRACKET)
    ensures ReadItem(Canonical(item) + rest) == Some(Read(Normalize(item), rest))
    decreases item, 2
  {
    hide ReadValue;
    if item.Undefined? {
      assert Canonical(item) + rest == rest;
    } else {
      RoundTrip(item, rest);
      FirstOf(item);
    }
  }

  lemma OneItem(items: seq<Value>, parent: Value)
    requires |items| == 1 && items[0] < parent
    ensures CanonicalItems(items, parent) == Canonical(items[0])
    ensures NormalizeItems(items, parent) == [Normalize(items[0])]
  {
    hide Canonical, Normalize;
  }

  lemma MoreItems(items: seq<Value>, parent: Value)
    requires |items| > 1 && forall i | 0 <= i < |items| :: items[i] < parent
    ensures CanonicalItems(items, parent) == Canonical(items[0]) + [COMMA] + CanonicalItems(items[1..], parent)
    ensures NormalizeItems(items, parent) == [Normalize(items[0])] + NormalizeItems(items[1..], parent)
  {
    hide Canonical, Normalize;
  }

  lemma {:induction false} ItemsRoundTrip(items: seq<Value>, parent: Value, rest: Text)
    requires items != [] && forall i | 0 <= i < |items| :: items[i] < parent
    ensures ReadItems(CanonicalItems(items, parent) + ([CLOSE_BRACKET] + rest)) ==
            Some(Read(NormalizeItems(items, parent), rest))
    decreases parent, 0, |items|
  {
    hide *;
    var end := [CLOSE_BRACKET] + rest;
    if |items| == 1 {
      OneItem(items, parent);
      ItemRoundTrip(items[0], end);
      ReadLastItem(Canonical(items[0]) + end, Normalize(items[0]), rest);
    } else {
      MoreItems(items, parent);
      var others := CanonicalItems(items[1..], parent) + end;
      ItemsRoundTrip(items[1..], parent, rest);
      ItemRoundTrip(items[0], [COMMA] + others);
      ReadMoreItems(Canonical(items[0]) + ([COMMA] + others), Normalize(items[0]), others,
                    NormalizeItems(items[1..], parent), rest);
      assert CanonicalItems(items, parent) + end == Canonical(items[0]) + ([COMMA] + others);
    }
  }

  lemma {:induction false} MemberRoundTrip(e: Entry, rest: Text)
    requires !e.value.Undefined? && Ends(rest)
    ensures ReadMember(CanonicalMember(e) + rest) == Some(Read(Entry(e.key, Normalize(e.value)), rest))
    decreases e.value, 2
  {
    hide ReadValue, ReadString, Quote;
    var value := Canonical(e.value) + rest;
    var tail := [COLON] + value;
    QuotedRoundTrip(e.key, tail);
    RoundTrip(e.value, rest);
    assert CanonicalMember(e) + rest == Quote(e.key) + tail;
    assert tail[1..] == value;
  }

  lemma {:induction false} MembersRoundTrip(members: seq<Entry>, parent: Value, rest: Text)
    requires members != [] && forall e | e in members :: e.value < parent && !e.value.Undefined?
    ensures ReadMembers(CanonicalMembers(members, parent) + ([CLOSE_BRACE] + rest)) ==
            Some(Read(NormalizeMembers(members, parent), rest))
    decreases parent, 0, |members|
  {
    hide ReadMember, ReadMembers, CanonicalMember, Normalize;
    var end := [CLOSE_BRACE] + rest;
    var first := Entry(members[0].key, Normalize(members[0].value));
    if |members| == 1 {
      MemberRoundTrip(members[0], end);
      ReadLastMember(CanonicalMember(members[0]) + end, first, rest);
      assert NormalizeMembers(members, parent) == [first];
    } else {
      var others := CanonicalMembers(members[1..], parent) + end;
      MembersRoundTrip(members[1..], parent, rest);
      MemberRoundTrip(members[0], [COMMA] + others);
      ReadMoreMembers(CanonicalMember(members[0]) + ([COMMA] + others), first, others,
                      NormalizeMembers(members[1..], parent), rest);
      assert CanonicalMembers(members, parent) + end == CanonicalMember(members[0]) + ([COMMA] + others);
    }
  }

  // Equality up to key order and undefined members -----------------------------------------------------

  ghost predicate DistinctKeys(entries: seq<Entry>) {
    forall i, j | 0 <= i < j < |entries| :: entries[i].key != entries[j].key
  }

  /** An object lists each key once, as JavaScript objects do, and numbers are safe integers,
      which JavaScript prints in plain decimal. */
  ghost predicate WellFormed(v: Value) {
    match v
    case Number(n) => -MAX_SAFE_INTEGER <= n <= MAX_SAFE_INTEGER
    case Array(items) => forall i | 0 <= i < |items| :: WellFormed(items[i])
    case Object(entries) => DistinctKeys(entries) && forall i | 0 <= i < |entries| :: WellFormed(entries[i].value)
    case _ => true
  }

  /** Equal as JSON: arrays by position, objects by key, undefined members ignored. */
  ghost predicate Same(v: Value, w: Value)
    decreases v
  {
    match (v, w)
    case (Array(a), Array(b)) =>
      if Trimmed(a) == [] || Trimmed(b) == [] then Trimmed(a) == Trimmed(b)
      else |a| == |b| && forall i | 0 <= i < |a| :: Same(a[i], b[i])
    case (Object(a), Object(b)) =>
      && (forall e | e in a && !e.value.Undefined? ::
            exists f :: f in b && !f.value.Undefined? && f.key == e.key && Same(e.value, f.value))
      && (forall f | f in b && !f.value.Undefined? ::
            exists e :: e in a && !e.value.Undefined? && e.key == f.key)
    case _ => v == w
  }

  ghost predicate SortedKeys(s: seq<Entry>) {
    forall i, j | 0 <= i < j < |s| :: Less(s[i].key, s[j].key)
  }

  lemma SortSortsKeys(s: seq<Entry>)
    requires DistinctKeys(s)
    ensures SortedKeys(SortBy(ByEntryKey(), s))
  {
    hide Less;
    forall a, b | a in s && b in s && a != b ensures Less(a.key, b.key) || Less(b.key, a.key) {
      LessIsTotal(a.key, b.key);
      var i :| 0 <= i < |s| && s[i] == a;
      var j :| 0 <= j < |s| && s[j] == b;
      assert i < j || j < i;
    }
    forall a, b, c | a in s && b in s && c in s && Less(a.key, b.key) && Less(b.key, c.key) ensures Less(a.key, c.key) {
      LessIsTransitive(a.key, b.key, c.key);
    }
    SortSorts(ByEntryKey(), s);
  }

  lemma {:induction false} FilterDistinctKeys(s: seq<Entry>, p: Entry -> bool)
    requires DistinctKeys(s)
    ensures DistinctKeys(Filter(s, p))
  {
    if s != [] {
      FilterDistinctKeys(s[1..], p);
      assert forall x | x in s[1..] :: x.key != s[0].key;
    }
  }

  lemma MembersSorted(entries: seq<Entry>)
    requires DistinctKeys(entries)
    ensures SortedKeys(Members(entries))
  {
    FilterDistinctKeys(entries, IsDefined());
    SortSortsKeys(Filter(entries, IsDefined()));
  }

  function Keys(s: seq<Entry>): (r: seq<Text>)
    ensures |r| == |s| && forall i | 0 <= i < |s| :: r[i] == s[i].key
  {
    seq(|s|, i requires 0 <= i < |s| => s[i].key)
  }

  /** Increasing lists of texts with the same members are equal. */
  lemma {:induction false} IncreasingTextsUnique(a: seq<Text>, b: seq<Text>)
    requires forall i, j | 0 <= i < j < |a| :: Less(a[i], a[j])
    requires forall i, j | 0 <= i < j < |b| :: Less(b[i], b[j])
    requires forall x | x in a :: x in b
    requires forall x | x in b :: x in a
    ensures a == b
  {
    NonemptyHasMember(a);
    NonemptyHasMember(b);
    if a != [] && b != [] {
      LessIsTotal(a[0], b[0]);
      LessIsTotal(a[0], a[0]);
      LessIsTotal(b[0], b[0]);
      assert a[0] in b && b[0] in a;
      assert a == [a[0]] + a[1..] && b == [b[0]] + b[1..];
      assert a[0] == b[0];
      forall x | x in a[1..] ensures x in b[1..] {
        assert Less(a[0], x) && x in [b[0]] + b[1..];
      }
      forall x | x in b[1..] ensures x in a[1..] {
        assert Less(b[0], x) && x in [a[0]] + a[1..];
      }
      IncreasingTextsUnique(a[1..], b[1..]);
    }
  }

  lemma MemberSame(a: seq<Entry>, b: seq<Entry>, e: Entry) returns (f: Entry)
    requires Same(Object(a), Object(b)) && e in a && !e.value.Undefined?
    ensures f in b && !f.value.Undefined? && f.key == e.key && Same(e.value, f.value)
  {
    f :| f in b && !f.value.Undefined? && f.key == e.key && Same(e.value, f.value);
  }

  /** The members of two equal objects stand in the same places. */
  lemma MembersAlign(v: Value, w: Value)
    requires v.Object? && w.Object? && WellFormed(v) && WellFormed(w) && Same(v, w)
    ensures var s, t := Members(v.entries), Members(w.entries);
            |s| == |t| && forall i | 0 <= i < |s| :: s[i].key == t[i].key && Same(s[i].value, t[i].value)
  {
    var s, t := Members(v.entries), Members(w.entries);
    hide Members, WellFormed, Same;
    KeysAgree(v, w);
    forall i | 0 <= i < |s| ensures Same(s[i].value, t[i].value) {
      assert s[i] in s && t[i] in t;
      var f := MemberSame(v.entries, w.entries, s[i]);
      assert f in t;
      var j :| 0 <= j < |t| && t[j] == f;
      SortedKeyOnce(t, i, j);
    }
  }

  lemma SortedKeyOnce(s: seq<Entry>, i: nat, j: nat)
    requires SortedKeys(s) && i < |s| && j < |s| && s[i].key == s[j].key
    ensures i == j
  {
    LessIsTotal(s[i].key, s[i].key);
  }

  ghost predicate DefinesKey(entries: seq<Entry>, key: Text) {
    exists e :: e in entries && !e.value.Undefined? && e.key == key
  }

  lemma KeyListed(entries: seq<Entry>, key: Text)
    ensures key in Keys(Members(entries)) <==> DefinesKey(entries, key)
  {
    var s := Members(entries);
    hide Members;
    if key in Keys(s) {
      var i :| 0 <= i < |s| && s[i].key == key;
      assert s[i] in s;
    }
    if DefinesKey(entries, key) {
      var e :| e in entries && !e.value.Undefined? && e.key == key;
      assert e in s;
      var i :| 0 <= i < |s| && s[i] == e;
      assert Keys(s)[i] == key;
    }
  }

  lemma KeysAgree(v: Value, w: Value)
    requires v.Object? && w.Object? && WellFormed(v) && WellFormed(w) && Same(v, w)
    ensures var s, t := Members(v.entries), Members(w.entries);
            SortedKeys(s) && SortedKeys(t) && Keys(s) == Keys(t)
  {
    var s, t := Members(v.entries), Members(w.entries);
    MembersSorted(v.entries);
    MembersSorted(w.entries);
    hide Members, WellFormed;
    forall key ensures key in Keys(s) <==> key in Keys(t) {
      KeyListed(v.entries, key);
      KeyListed(w.entries, key);
    }
    IncreasingTextsUnique(Keys(s), Keys(t));
  }

  /** Equal values print alike. */
  lemma {:induction false} SamePrintsAlike(v: Value, w: Value)
    requires WellFormed(v) && WellFormed(w) && Same(v, w)
    ensures Canonical(v) == Canonical(w)
    decreases v, 1
  {
    match (v, w)
    case (Array(a), Array(b)) =>
      if Trimmed(a) == [] || Trimmed(b) == [] {
        EmptyItems(a, v);
        EmptyItems(b, w);
      } else {
        ItemsPrintAlike(a, b, v, w);
      }
    case (Object(a), Object(b)) =>
      MembersAlign(v, w);
      MembersWellFormed(v);
      MembersWellFormed(w);
      hide Members, Same, WellFormed;
      MembersPrintAlike(Members(a), Members(b), v, w);
    case _ =>
  }

  lemma EmptyItems(items: seq<Value>, parent: Value)
    requires Trimmed(items) == [] && forall i | 0 <= i < |items| :: items[i] < parent
    ensures CanonicalItems(items, parent) == []
  {
  }

  lemma MembersWellFormed(v: Value)
    requires v.Object? && WellFormed(v)
    ensures forall i | 0 <= i < |Members(v.entries)| :: WellFormed(Members(v.entries)[i].value)
  {
    forall i | 0 <= i < |Members(v.entries)| ensures WellFormed(Members(v.entries)[i].value) {
      assert Members(v.entries)[i] in Members(v.entries);
    }
  }

  lemma {:induction false} ItemsPrintAlike(a: seq<Value>, b: seq<Value>, v: Value, w: Value)
    requires |a| == |b| && forall i | 0 <= i < |a| :: a[i] < v && b[i] < w
    requires forall i | 0 <= i < |a| :: WellFormed(a[i]) && WellFormed(b[i]) && Same(a[i], b[i])
    ensures CanonicalItems(a, v) == CanonicalItems(b, w)
    decreases v, 0, |a|
  {
    hide Canonical, WellFormed, Same;
    if a != [] {
      SamePrintsAlike(a[0], b[0]);
      ItemsPrintAlike(a[1..], b[1..], v, w);
    }
  }

  lemma {:induction false} MembersPrintAlike(s: seq<Entry>, t: seq<Entry>, v: Value, w: Value)
    requires |s| == |t| && (forall e | e in s :: e.value < v) && (forall f | f in t :: f.value < w)
    requires forall i | 0 <= i < |s| :: s[i].key == t[i].key && Same(s[i].value, t[i].value)
    requires forall i | 0 <= i < |s| :: WellFormed(s[i].value) && WellFormed(t[i].value)
    ensures CanonicalMembers(s, v) == CanonicalMembers(t, w)
    decreases v, 0, |s|
  {
    hide Canonical, WellFormed, Same, Quote;
    if s != [] {
      SamePrintsAlike(s[0].value, t[0].value);
      MembersPrintAlike(s[1..], t[1..], v, w);
    }
  }

  /** Values with the same normal form are equal. */
  lemma {:induction false} NormalFormDecides(v: Value, w: Value)
    requires Normalize(v) == Normalize(w)
    ensures Same(v, w)
    decreases v, 1
  {
    match (v, w)
    case (Array(a), Array(b)) =>
      if Trimmed(a) != [] && Trimmed(b) != [] {
        ItemsNormalFormDecides(a, b, v, w);
      }
    case (Object(a), Object(b)) =>
      MembersNormalFormDecides(Members(a), Members(b), v, w);
      AlignedMembersSame(a, b, Members(a), Members(b));
    case _ =>
  }

  lemma AlignedMembersSame(a: seq<Entry>, b: seq<Entry>, s: seq<Entry>, t: seq<Entry>)
    requires s == Members(a) && t == Members(b) && |s| == |t|
    requires forall i | 0 <= i < |s| :: s[i].key == t[i].key && Same(s[i].value, t[i].value)
    ensures Same(Object(a), Object(b))
  {
    hide Members;
    forall e | e in a && !e.value.Undefined?
      ensures exists f :: f in b && !f.value.Undefined? && f.key == e.key && Same(e.value, f.value)
    {
      assert e in s;
      var i :| 0 <= i < |s| && s[i] == e;
      assert t[i] in t;
    }
    forall f | f in b && !f.value.Undefined?
      ensures exists e :: e in a && !e.value.Undefined? && e.key == f.key
    {
      assert f in t;
      var i :| 0 <= i < |t| && t[i] == f;
      assert s[i] in s;
    }
  }

  lemma {:induction false} ItemsNormalFormDecides(a: seq<Value>, b: seq<Value>, v: Value, w: Value)
    requires (forall i | 0 <= i < |a| :: a[i] < v) && (forall i | 0 <= i < |b| :: b[i] < w)
    requires NormalizeItems(a, v) == NormalizeItems(b, w)
    ensures |a| == |b| && forall i | 0 <= i < |a| :: Same(a[i], b[i])
    decreases v, 0, |a|
  {
    hide Normalize, Same;
    if a != [] && b != [] {
      assert NormalizeItems(a, v)[0] == NormalizeItems(b, w)[0];
      assert NormalizeItems(a, v)[1..] == NormalizeItems(b, w)[1..];
      NormalFormDecides(a[0], b[0]);
      ItemsNormalFormDecides(a[1..], b[1..], v, w);
      assert forall i | 0 < i < |a| :: a[i] == a[1..][i - 1] && b[i] == b[1..][i - 1];
    }
  }

  lemma AlignedCons(s: seq<Entry>, t: seq<Entry>)
    requires s != [] && |s| == |t| && s[0].key == t[0].key && Same(s[0].value, t[0].value)
    requires forall i | 0 <= i < |s| - 1 :: s[1..][i].key == t[1..][i].key && Same(s[1..][i].value, t[1..][i].value)
    ensures forall i | 0 <= i < |s| :: s[i].key == t[i].key && Same(s[i].value, t[i].value)
  {
    hide Same;
    forall i | 0 <= i < |s| ensures s[i].key == t[i].key && Same(s[i].value, t[i].value) {
      if i > 0 {
        assert s[i] == s[1..][i - 1] && t[i] == t[1..][i - 1];
      }
    }
  }

  lemma FirstNormalized(s: seq<Entry>, v: Value)
    requires s != [] && forall e | e in s :: e.value < v
    ensures NormalizeMembers(s, v)[0] == Entry(s[0].key, Normalize(s[0].value))
    ensures NormalizeMembers(s, v)[1..] == NormalizeMembers(s[1..], v)
  {
    hide Normalize;
  }

  lemma {:induction false} MembersNormalFormDecides(s: seq<Entry>, t: seq<Entry>, v: Value, w: Value)
    requires (forall e | e in s :: e.value < v) && (forall f | f in t :: f.value < w)
    requires NormalizeMembers(s, v) == NormalizeMembers(t, w)
    ensures |s| == |t| && forall i | 0 <= i < |s| :: s[i].key == t[i].key && Same(s[i].value, t[i].value)
    decreases v, 0, |s|
  {
    hide Normalize, Same, NormalizeMembers;
    if s != [] && t != [] {
      FirstNormalized(s, v);
      FirstNormalized(t, w);
      NormalFormDecides(s[0].value, t[0].value);
      MembersNormalFormDecides(s[1..], t[1..], v, w);
      AlignedCons(s, t);
    }
  }

  /** Two values print to the same text exactly when they are equal up to key order and
      undefined members. */
  lemma CanonicalIdentifies(v: Value, w: Value)
    requires WellFormed(v) && WellFormed(w) && !v.Undefined? && !w.Undefined?
    ensures Canonical(v) == Canonical(w) <==> Same(v, w)
  {
    hide Canonical, ReadValue, Normalize, Same;
    if Canonical(v) == Canonical(w) {
      RoundTrip(v, []);
      RoundTrip(w, []);
      NormalFormDecides(v, w);
    }
    if Same(v, w) {
      SamePrintsAlike(v, w);
    }
  }

  /** The one thing lost besides order and undefined members: a lone undefined array element. */
  lemma LoneUndefinedIsLost()
    ensures Array([Undefined]) != Array([])
    ensures Canonical(Array([Undefined])) == Canonical(Array([]))
    ensures Canonical(Array([Undefined, Undefined])) != Canonical(Array([Undefined]))
  {
    var one, two := Array([Undefined]), Array([Undefined, Undefined]);
    assert |two.items| == 2 && |one.items| == 1;
    EmptyItems([Undefined], one);
    assert !Same(two, one);
    CanonicalIdentifies(two, one);
  }
}
