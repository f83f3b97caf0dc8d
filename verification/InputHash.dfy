/** The semantic hash of a unit's classification input. */
module InputHash {
  import opened Sequences
  import opened Sorting
  import opened JsonText
  import opened TextOrder
  import opened CanonicalJson
  import opened IdentityText

  /** `id` */
  const ID: Text := [0x69, 0x64]

  /** One member tweet: the fields of the object that is sorted and printed. */
  datatype Member = Member(fields: seq<Entry>) {
    function Id(): Text { IdIn(fields) }
  }

  function IdIn(fields: seq<Entry>): Text {
    if fields == [] then []
    else if fields[0].key == ID && fields[0].value.Str? then fields[0].value.text
    else IdIn(fields[1..])
  }

  /** The object lists each key once, and one of them is a string `id`. */
  ghost predicate Proper(m: Member) {
    WellFormed(FieldsOf(m)) && Entry(ID, Str(m.Id())) in m.fields
  }

  ghost predicate AllProper(members: seq<Member>) { forall m | m in members :: Proper(m) }

  function ById(): (Member, Member) -> bool { (a: Member, b: Member) => Less(a.Id(), b.Id()) }

  /** Members in identifier order; members that share an identifier keep the given order. */
  function SortMembers(s: seq<Member>): (r: seq<Member>)
    ensures multiset(r) == multiset(s)
  {
    SortBy(ById(), s)
  }

  function FieldsOf(m: Member): Value { Object(m.fields) }

  const UNIT_ID: Text := [0x75, 0x6e, 0x69, 0x74, 0x5f, 0x69, 0x64]
  const MEMBERS: Text := [0x6d, 0x65, 0x6d, 0x62, 0x65, 0x72, 0x73]

  /** The text whose digest is the input hash. */
  function InputText(unitId: Text, members: seq<Member>): Text {
    Canonical(InputValue(unitId, members))
  }

  function InputValue(unitId: Text, members: seq<Member>): Value {
    Object([Entry(UNIT_ID, Str(unitId)), Entry(MEMBERS, Array(Map(FieldsOf, SortMembers(members))))])
  }

  function HasId(id: Text): Member -> bool { (m: Member) => m.Id() == id }

  lemma NotLessTransitive(a: Text, b: Text, c: Text)
    requires !Less(b, a) && !Less(c, b)
    ensures !Less(c, a)
  {
    LessIsTotal(a, b);
    LessIsTotal(b, c);
    LessIsTotal(a, c);
    if a != b && b != c {
      LessIsTransitive(a, b, c);
    }
  }

  lemma SortRanksIds(s: seq<Member>)
    ensures Ranked(ById(), SortMembers(s))
  {
    hide Less;
    forall a: Member, b: Member | Less(a.Id(), b.Id()) ensures !Less(b.Id(), a.Id()) {
      LessIsTotal(a.Id(), b.Id());
    }
    forall a: Member, b: Member, c: Member | !Less(b.Id(), a.Id()) && !Less(c.Id(), b.Id())
      ensures !Less(c.Id(), a.Id())
    {
      NotLessTransitive(a.Id(), b.Id(), c.Id());
    }
    SortRanks(ById(), s);
  }

  /** Sorting keeps the order among members with one identifier. */
  lemma SortKeepsParts(s: seq<Member>, id: Text)
    ensures Filter(SortMembers(s), HasId(id)) == Filter(s, HasId(id))
  {
    LessIsTotal(id, id);
    hide Less;
    SortIsStable(ById(), s, HasId(id));
  }

  // Equal up to key order and undefined fields --------------------------------------------------------------

  /** The members with one identifier, one by one. */
  ghost predicate SamePart(s: seq<Member>, t: seq<Member>) {
    |s| == |t| && forall i | 0 <= i < |s| :: Same(FieldsOf(s[i]), FieldsOf(t[i]))
  }

  ghost predicate SameParts(s: seq<Member>, t: seq<Member>) {
    forall id :: SamePart(Filter(s, HasId(id)), Filter(t, HasId(id)))
  }

  /** Equal members have equal identifiers. */
  lemma SameId(m: Member, n: Member)
    requires Proper(m) && Proper(n) && Same(FieldsOf(m), FieldsOf(n))
    ensures m.Id() == n.Id()
  {
    var e := Entry(ID, Str(m.Id()));
    hide Same, WellFormed;
    var f := MemberSame(m.fields, n.fields, e);
    SameString(m.Id(), f.value);
    KeyOnce(n.fields, f, Entry(ID, Str(n.Id())));
  }

  lemma SameString(text: Text, v: Value)
    requires Same(Str(text), v)
    ensures v == Str(text)
  {
  }

  lemma KeyOnce(fields: seq<Entry>, e: Entry, f: Entry)
    requires WellFormed(Object(fields)) && e in fields && f in fields && e.key == f.key
    ensures e == f
  {
    var i :| 0 <= i < |fields| && fields[i] == e;
    var j :| 0 <= j < |fields| && fields[j] == f;
    assert i < j || j < i || i == j;
  }

  lemma PartTail(s: seq<Member>, id: Text)
    requires s != []
    ensures var head := if s[0].Id() == id then 1 else 0;
            head <= |Filter(s, HasId(id))| &&
            Filter(s[1..], HasId(id)) == Filter(s, HasId(id))[head..] &&
            (head == 1 ==> Filter(s, HasId(id))[0] == s[0])
  {
  }

  /** Lists that agree one by one agree on each identifier. */
  lemma {:induction false} AlignedParts(s: seq<Member>, t: seq<Member>, id: Text)
    requires AllProper(s) && AllProper(t) && SamePart(s, t)
    ensures SamePart(Filter(s, HasId(id)), Filter(t, HasId(id)))
  {
    hide Proper, Same, FieldsOf, Filter;
    if s == [] {
      EmptyParts(id);
    } else {
      SameId(s[0], t[0]);
      AlignedParts(s[1..], t[1..], id);
      FilterCons(s[0], s[1..], HasId(id));
      FilterCons(t[0], t[1..], HasId(id));
      assert s == [s[0]] + s[1..] && t == [t[0]] + t[1..];
    }
  }

  lemma EmptyParts(id: Text)
    ensures Filter([], HasId(id)) == []
  {
  }

  /** Lists in identifier order that agree on each identifier agree one by one. */
  lemma {:induction false} PartsAlign(s: seq<Member>, t: seq<Member>)
    requires Ranked(ById(), s) && Ranked(ById(), t) && SameParts(s, t)
    ensures SamePart(s, t)
  {
    hide Filter, Less, Same, FieldsOf;
    if s == [] {
      if t != [] {
        PartHead(t, s);
      }
    } else if t == [] {
      PartHead(s, t);
    } else {
      PartHead(s, t);
      PartHead(t, s);
      LessIsTotal(s[0].Id(), t[0].Id());
      assert s[0].Id() == t[0].Id();
      PartTail(s, s[0].Id());
      PartTail(t, t[0].Id());
      forall id ensures SamePart(Filter(s[1..], HasId(id)), Filter(t[1..], HasId(id))) {
        PartTail(s, id);
        PartTail(t, id);
        assert SamePart(Filter(s, HasId(id)), Filter(t, HasId(id)));
      }
      assert SamePart(Filter(s, HasId(s[0].Id())), Filter(t, HasId(s[0].Id())));
      PartsAlign(s[1..], t[1..]);
      assert s == [s[0]] + s[1..] && t == [t[0]] + t[1..];
    }
  }

  /** The first identifier of one list occurs in the other, so not before its first. */
  lemma PartHead(s: seq<Member>, t: seq<Member>)
    requires s != [] && Ranked(ById(), t)
    requires forall id :: |Filter(s, HasId(id))| == |Filter(t, HasId(id))|
    ensures t != [] && !Less(s[0].Id(), t[0].Id())
  {
    var part := Filter(t, HasId(s[0].Id()));
    assert s[0] in Filter(s, HasId(s[0].Id()));
    assert part[0] in part;
    assert part[0] in t;
    var k :| 0 <= k < |t| && t[k] == part[0];
    LessIsTotal(t[0].Id(), t[0].Id());
  }

  // What the text identifies ----------------------------------------------------------------------------------

  lemma SortedProper(members: seq<Member>)
    requires AllProper(members)
    ensures AllProper(SortMembers(members))
  {
    forall m | m in SortMembers(members) ensures m in members {
      assert m in multiset(SortMembers(members));
    }
    hide Proper, SortMembers;
  }

  lemma ItemsWellFormed(members: seq<Member>)
    requires AllProper(members)
    ensures WellFormed(Array(Map(FieldsOf, members)))
  {
    forall i | 0 <= i < |members| ensures WellFormed(Map(FieldsOf, members)[i]) {
      assert Proper(members[i]);
    }
  }

  lemma PairWellFormed(k: Text, l: Text, v: Value, w: Value)
    requires k != l && WellFormed(v) && WellFormed(w)
    ensures WellFormed(Object([Entry(k, v), Entry(l, w)]))
  {
    var entries := [Entry(k, v), Entry(l, w)];
    assert entries[0].key != entries[1].key;
  }

  lemma InputWellFormed(unit: Text, members: seq<Member>)
    requires AllProper(members)
    ensures WellFormed(InputValue(unit, members))
  {
    SortedProper(members);
    ItemsWellFormed(SortMembers(members));
    assert WellFormed(Str(unit));
    assert UNIT_ID[0] != MEMBERS[0];
    hide WellFormed, SortMembers, Map;
    PairWellFormed(UNIT_ID, MEMBERS, Str(unit), Array(Map(FieldsOf, SortMembers(members))));
  }

  lemma PairSame(k: Text, l: Text, v: Value, w: Value, v': Value, w': Value)
    requires k != l && !v.Undefined? && !w.Undefined? && !v'.Undefined? && !w'.Undefined?
    ensures Same(Object([Entry(k, v), Entry(l, w)]), Object([Entry(k, v'), Entry(l, w')])) <==>
              Same(v, v') && Same(w, w')
  {
    hide Same;
    var a, b := [Entry(k, v), Entry(l, w)], [Entry(k, v'), Entry(l, w')];
    if Same(Object(a), Object(b)) {
      var f := MemberSame(a, b, a[0]);
      assert f == b[0];
      var g := MemberSame(a, b, a[1]);
      assert g == b[1];
    }
    if Same(v, v') && Same(w, w') {
      assert b[0] in b && b[1] in b && a[0] in a && a[1] in a;
      PairIsSame(a, b);
    }
  }

  lemma PairIsSame(a: seq<Entry>, b: seq<Entry>)
    requires |a| == |b| && forall i | 0 <= i < |a| ::
               a[i].key == b[i].key && !a[i].value.Undefined? && !b[i].value.Undefined?
    requires forall i | 0 <= i < |a| :: Same(a[i].value, b[i].value)
    ensures Same(Object(a), Object(b))
  {
    forall e | e in a ensures exists f :: f in b && !f.value.Undefined? && f.key == e.key && Same(e.value, f.value) {
      var i :| 0 <= i < |a| && a[i] == e;
      assert b[i] in b;
    }
    forall f | f in b ensures exists e :: e in a && !e.value.Undefined? && e.key == f.key {
      var i :| 0 <= i < |b| && b[i] == f;
      assert a[i] in a;
    }
  }

  lemma ItemsSame(a: seq<Value>, b: seq<Value>)
    requires (a != [] ==> !a[0].Undefined?) && (b != [] ==> !b[0].Undefined?)
    ensures Same(Array(a), Array(b)) <==> |a| == |b| && forall i | 0 <= i < |a| :: Same(a[i], b[i])
  {
  }

  lemma FieldsSame(s: seq<Member>, t: seq<Member>)
    ensures Same(Array(Map(FieldsOf, s)), Array(Map(FieldsOf, t))) <==> SamePart(s, t)
  {
    ItemsSame(Map(FieldsOf, s), Map(FieldsOf, t));
    hide Same;
    if SamePart(s, t) {
      forall i | 0 <= i < |s| ensures Same(Map(FieldsOf, s)[i], Map(FieldsOf, t)[i]) {
        assert Same(FieldsOf(s[i]), FieldsOf(t[i]));
      }
    } else if |s| == |t| {
      var i :| 0 <= i < |s| && !Same(FieldsOf(s[i]), FieldsOf(t[i]));
      assert !Same(Map(FieldsOf, s)[i], Map(FieldsOf, t)[i]);
    }
  }

  lemma SameUnit(unit: Text, unit': Text)
    ensures Same(Str(unit), Str(unit')) <==> unit == unit'
  {
  }

  lemma TextIdentifies(unit: Text, members: seq<Member>, unit': Text, members': seq<Member>)
    requires AllProper(members) && AllProper(members')
    ensures InputText(unit, members) == InputText(unit', members') <==>
            unit == unit' && SamePart(SortMembers(members), SortMembers(members'))
  {
    InputWellFormed(unit, members);
    InputWellFormed(unit', members');
    CanonicalIdentifies(InputValue(unit, members), InputValue(unit', members'));
    hide Canonical, WellFormed, Same, SortMembers, Map;
    assert UNIT_ID[0] != MEMBERS[0];
    var s, t := SortMembers(members), SortMembers(members');
    PairSame(UNIT_ID, MEMBERS, Str(unit), Array(Map(FieldsOf, s)), Str(unit'), Array(Map(FieldsOf, t)));
    SameUnit(unit, unit');
    FieldsSame(s, t);
  }

  /** The input hash identifies the unit and, for every identifier, its members in their order,
      each up to the order of its keys and undefined fields. */
  lemma InputIdentifies(unit: Text, members: seq<Member>, unit': Text, members': seq<Member>)
    requires AllProper(members) && AllProper(members')
    ensures InputText(unit, members) == InputText(unit', members') <==> unit == unit' && SameParts(members, members')
  {
    TextIdentifies(unit, members, unit', members');
    SortRanksIds(members);
    SortRanksIds(members');
    SortedProper(members);
    SortedProper(members');
    hide InputText, SortMembers, Filter, Proper, Ranked, SamePart;
    var s, t := SortMembers(members), SortMembers(members');
    forall id
      ensures Filter(s, HasId(id)) == Filter(members, HasId(id)) && Filter(t, HasId(id)) == Filter(members', HasId(id))
    {
      SortKeepsParts(members, id);
      SortKeepsParts(members', id);
    }
    if SamePart(s, t) {
      forall id ensures SamePart(Filter(s, HasId(id)), Filter(t, HasId(id))) {
        AlignedParts(s, t, id);
      }
    }
    if SameParts(s, t) {
      PartsAlign(s, t);
    }
    assert SameParts(s, t) <==> SameParts(members, members');
  }

  // The order of the members ----------------------------------------------------------------------------------

  ghost predicate DistinctIds(members: seq<Member>) {
    forall i, j | 0 <= i < j < |members| :: members[i].Id() != members[j].Id()
  }

  lemma {:induction false} OneWithId(members: seq<Member>, m: Member)
    requires DistinctIds(members) && m in members
    ensures Filter(members, HasId(m.Id())) == [m]
  {
    if members[0] == m {
      assert forall x | x in members[1..] :: x.Id() != m.Id();
      FilterNone(members[1..], HasId(m.Id()));
    } else {
      OneWithId(members[1..], m);
      assert members[0].Id() != m.Id();
    }
  }

  lemma SameAsItself(m: Member)
    requires Proper(m)
    ensures Same(FieldsOf(m), FieldsOf(m))
  {
    CanonicalIdentifies(FieldsOf(m), FieldsOf(m));
  }

  /** Members with different identifiers may come in any order. */
  lemma AnyOrderOfDistinctMembers(unit: Text, members: seq<Member>, members': seq<Member>)
    requires AllProper(members)
    requires multiset(members) == multiset(members') && DistinctIds(members) && DistinctIds(members')
    ensures InputText(unit, members) == InputText(unit, members')
  {
    hide Proper, InputText, Same, FieldsOf;
    forall m ensures m in members <==> m in members' {
      assert m in members <==> m in multiset(members);
    }
    forall id ensures SamePart(Filter(members, HasId(id)), Filter(members', HasId(id))) {
      if m :| m in members && m.Id() == id {
        OneWithId(members, m);
        OneWithId(members', m);
        SameAsItself(m);
      } else {
        FilterNone(members, HasId(id));
        FilterNone(members', HasId(id));
      }
    }
    InputIdentifies(unit, members, unit, members');
  }

  lemma BothWithId(a: Member, b: Member, id: Text)
    requires a.Id() == b.Id()
    ensures Filter([a, b], HasId(id)) == if a.Id() == id then [a, b] else []
  {
    if a.Id() == id {
      FilterAll([a, b], HasId(id));
    } else {
      FilterNone([a, b], HasId(id));
    }
  }

  lemma PairParts(a: Member, b: Member)
    requires a.Id() == b.Id()
    ensures SameParts([a, b], [b, a]) <==> SamePart([a, b], [b, a])
  {
    hide FieldsOf, Same, Filter, SamePart;
    forall id ensures SamePart(Filter([a, b], HasId(id)), Filter([b, a], HasId(id))) <==>
                      (a.Id() == id ==> SamePart([a, b], [b, a])) {
      BothWithId(a, b, id);
      BothWithId(b, a, id);
      NoPart();
    }
    assert SameParts([a, b], [b, a]) ==> SamePart(Filter([a, b], HasId(a.Id())), Filter([b, a], HasId(a.Id())));
  }

  lemma NoPart()
    ensures SamePart([], [])
  {
  }

  lemma PairPart(a: Member, b: Member)
    ensures SamePart([a, b], [b, a]) <==> Same(FieldsOf(a), FieldsOf(b)) && Same(FieldsOf(b), FieldsOf(a))
  {
    hide FieldsOf, Same;
    assert [a, b][0] == a && [a, b][1] == b && [b, a][0] == b && [b, a][1] == a;
  }

  lemma SameIsSymmetric(m: Member, n: Member)
    requires Proper(m) && Proper(n)
    ensures Same(FieldsOf(m), FieldsOf(n)) <==> Same(FieldsOf(n), FieldsOf(m))
  {
    CanonicalIdentifies(FieldsOf(m), FieldsOf(n));
    CanonicalIdentifies(FieldsOf(n), FieldsOf(m));
    hide Same, WellFormed, Canonical;
  }

  lemma PairProper(a: Member, b: Member)
    requires Proper(a) && Proper(b)
    ensures AllProper([a, b])
  {
    hide Proper;
  }

  /** Two members with one identifier hash alike in the other order exactly when they are equal
      up to the order of keys and undefined fields. */
  lemma RepeatedIdKeepsOrder(unit: Text, a: Member, b: Member)
    requires a.Id() == b.Id() && Proper(a) && Proper(b)
    ensures multiset([a, b]) == multiset([b, a])
    ensures InputText(unit, [a, b]) == InputText(unit, [b, a]) <==> Same(FieldsOf(a), FieldsOf(b))
  {
    hide *;
    SameIsSymmetric(a, b);
    PairProper(a, b);
    PairProper(b, a);
    InputIdentifies(unit, [a, b], unit, [b, a]);
    PairParts(a, b);
    PairPart(a, b);
  }

  /** `text` */
  const TEXT: Text := [0x74, 0x65, 0x78, 0x74]

  /** A capture of one post: an identifier and a text. */
  function Captured(id: Text, text: Text): Member { Member([Entry(ID, Str(id)), Entry(TEXT, Str(text))]) }

  lemma CapturedIsProper(id: Text, text: Text)
    ensures Captured(id, text).Id() == id && Proper(Captured(id, text))
  {
    assert ID[0] != TEXT[0];
    assert WellFormed(Str(id)) && WellFormed(Str(text));
    hide WellFormed;
    PairWellFormed(ID, TEXT, Str(id), Str(text));
  }

  lemma CapturedSame(id: Text, text: Text, other: Text)
    ensures Same(FieldsOf(Captured(id, text)), FieldsOf(Captured(id, other))) <==> text == other
  {
    hide Same;
    assert ID[0] != TEXT[0];
    PairSame(ID, TEXT, Str(id), Str(text), Str(id), Str(other));
    SameUnit(text, other);
    SameUnit(id, id);
  }

  /** For example, one post captured with the texts `a` and `b`. */
  lemma RepeatedIdExample(unit: Text)
    ensures var first, second := Captured([0x31], [0x61]), Captured([0x31], [0x62]);
            InputText(unit, [first, second]) != InputText(unit, [second, first])
  {
    var id: Text, a: Text, b: Text := [0x31], [0x61], [0x62];
    assert a[0] != b[0];
    CapturedIsProper(id, a);
    CapturedIsProper(id, b);
    CapturedSame(id, a, b);
    hide Captured, InputText, Same, Proper;
    RepeatedIdKeepsOrder(unit, Captured(id, a), Captured(id, b));
  }
}
