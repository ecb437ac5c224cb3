/** How many bytes a canonical text can take, from the sizes of its parts. */
module EncodedSize {
  import opened Text
  import opened CanonicalJson
  import opened CanonicalIdentity

  lemma {:induction false} Utf8Append(a: string, b: string)
    ensures Utf8Length(a + b) == Utf8Length(a) + Utf8Length(b)
  {
    if a == [] {
      assert a + b == b;
    } else {
      Utf8Append(a[1..], b);
      assert (a + b)[1..] == a[1..] + b;
    }
  }

  lemma {:induction false} AsciiBytes(s: string)
    requires Printable(s)
    ensures Utf8Length(s) == |s|
  {
    if s != [] {
      assert forall c :: c in s[1..] ==> c in s;
      assert s[0] in s;
      AsciiBytes(s[1..]);
    }
  }

  /** A character takes six bytes at most. */
  lemma EscapeBytes(c: char)
    ensures Utf8Length(Escape(c, false)) <= 6
  {
    if c < ' ' {
      assert Escape(c, false) == Escape(c, true);
      EscapePrintable(c);
      AsciiBytes(Escape(c, false));
    } else if c == '"' || c == '\\' {
      AsciiBytes(Escape(c, false));
    } else {
      assert [c][1..] == [];
    }
  }

  lemma {:induction false} EscapeAllBytes(s: string)
    ensures Utf8Length(EscapeAll(s, false)) <= 6 * |s|
  {
    hide Escape, Utf8Length;
    if s == [] {
      Nothing();
    } else {
      EscapeBytes(s[0]);
      EscapeAllBytes(s[1..]);
      Utf8Append(Escape(s[0], false), EscapeAll(s[1..], false));
    }
  }

  lemma Nothing()
    ensures Utf8Length("") == 0
  {
  }

  /** The text between two ASCII characters. */
  lemma EnclosedBytes(open: string, body: string, close: string)
    requires Printable(open) && Printable(close)
    ensures Utf8Length(open + body + close) == |open| + Utf8Length(body) + |close|
  {
    Utf8Append(open + body, close);
    Utf8Append(open, body);
    AsciiBytes(open);
    AsciiBytes(close);
  }

  lemma TextBytes(s: string)
    ensures Utf8Length(Encode(Str(s))) <= 6 * |s| + 2
  {
    hide EscapeAll, Utf8Length;
    EscapeAllBytes(s);
    EnclosedBytes("\"", EscapeAll(s, false), "\"");
  }

  /** Two texts with a comma between them. */
  lemma CommaBytes(a: string, b: string)
    ensures Utf8Length(a + "," + b) == Utf8Length(a) + 1 + Utf8Length(b)
  {
    Utf8Append(a + ",", b);
    Utf8Append(a, ",");
    AsciiBytes(",");
  }

  lemma {:induction false} ItemsBytes(items: seq<Doc>, bound: nat)
    requires forall i :: 0 <= i < |items| ==> Utf8Length(Emit(items[i], false)) <= bound
    ensures Utf8Length(EmitItems(items, false)) <= |items| * (bound + 1)
  {
    hide Emit, Utf8Length;
    if items == [] {
      Nothing();
    } else {
      ItemsBytes(items[1..], bound);
      assert |items| * (bound + 1) == (|items| - 1) * (bound + 1) + (bound + 1);
      CommaBytes(Emit(items[0], false), EmitItems(items[1..], false));
    }
  }

  lemma ArrayBytes(items: seq<Json>, bound: nat)
    requires forall v :: v in items ==> Utf8Length(Encode(v)) <= bound
    ensures Utf8Length(Encode(Arr(items))) <= 2 + |items| * (bound + 1)
  {
    hide EmitItems, Utf8Length;
    var docs := SortedDoc(Arr(items)).items;
    forall i | 0 <= i < |docs|
      ensures Utf8Length(Emit(docs[i], false)) <= bound
    {
      assert items[i] in items && Encode(items[i]) == Emit(docs[i], false);
    }
    ItemsBytes(docs, bound);
    EnclosedBytes("[", EmitItems(docs, false), "]");
  }

  lemma {:induction false} MembersBytes(ms: seq<Member>, bound: nat)
    requires forall i :: 0 <= i < |ms| ==> Utf8Length(EmitMember(ms[i], false)) <= bound
    ensures Utf8Length(EmitMembers(ms, false)) <= |ms| * (bound + 1)
  {
    hide EmitMember, Utf8Length;
    if ms == [] {
      Nothing();
    } else {
      MembersBytes(ms[1..], bound);
      assert |ms| * (bound + 1) == (|ms| - 1) * (bound + 1) + (bound + 1);
      CommaBytes(EmitMember(ms[0], false), EmitMembers(ms[1..], false));
    }
  }

  lemma MemberBytes(m: Member)
    ensures Utf8Length(EmitMember(m, false)) <= 6 * |m.key| + 3 + Utf8Length(Emit(m.value, false))
  {
    hide EscapeAll, Emit, Utf8Length;
    EscapeAllBytes(m.key);
    EnclosedBytes("\"", EscapeAll(m.key, false), "\":");
    Utf8Append("\"" + EscapeAll(m.key, false) + "\":", Emit(m.value, false));
  }

  lemma WrittenBytes(members: map<string, Json>, names: seq<string>, name: nat, bound: nat)
    requires forall k :: k in names ==> k in members
    requires forall k :: k in members ==> |k| <= name && Utf8Length(Encode(members[k])) <= bound
    ensures Utf8Length(EmitMembers(SortedMembers(Obj(members), names), false)) <= |names| * (6 * name + bound + 4)
  {
    hide EmitMembers, EmitMember, Utf8Length, Emit, SortedMembers, SortedDoc;
    var ms := SortedMembers(Obj(members), names);
    forall i | 0 <= i < |ms|
      ensures Utf8Length(EmitMember(ms[i], false)) <= 6 * name + bound + 3
    {
      assert names[i] in members;
      SortedMembersValue(Obj(members), names, i);
      MemberBytes(ms[i]);
      assert Emit(ms[i].value, false) == Encode(members[names[i]]);
    }
    MembersBytes(ms, 6 * name + bound + 3);
  }

  lemma {:induction false} FewNames(keys: set<string>, names: seq<string>)
    requires forall k :: k in keys ==> k in names
    ensures |keys| <= |names|
  {
    if names == [] {
      assert keys == {};
    } else {
      forall k | k in keys - {names[0]}
        ensures k in names[1..]
      {
        assert names == [names[0]] + names[1..];
      }
      FewNames(keys - {names[0]}, names[1..]);
    }
  }

  lemma ProductMonotone(a: nat, b: nat, factor: nat)
    requires a <= b
    ensures a * factor <= b * factor
  {
  }

  /** An object with at most these names, none of them nor any value longer than this. */
  lemma ObjectBytes(members: map<string, Json>, names: seq<string>, name: nat, bound: nat)
    requires forall k :: k in members ==> k in names
    requires forall k :: k in names ==> |k| <= name
    requires forall k :: k in members ==> Utf8Length(Encode(members[k])) <= bound
    ensures Utf8Length(Encode(Obj(members))) <= 2 + |names| * (6 * name + bound + 4)
  {
    hide EmitMembers, Utf8Length, Emit, SortedMembers, SortedDoc, Sorted, Encode;
    var sorted := Sorted(members.Keys);
    WrittenBytes(members, sorted, name, bound);
    SortedSize(members.Keys);
    FewNames(members.Keys, names);
    ProductMonotone(|sorted|, |names|, 6 * name + bound + 4);
    ObjectText(members, sorted);
    EnclosedBytes("{", EmitMembers(SortedMembers(Obj(members), sorted), false), "}");
  }

  lemma ObjectText(members: map<string, Json>, names: seq<string>)
    requires names == Sorted(members.Keys)
    ensures Encode(Obj(members)) == "{" + EmitMembers(SortedMembers(Obj(members), names), false) + "}"
  {
    hide Sorted, SortedMembers, EmitMembers;
    assert SortedDoc(Obj(members)) == DObj(SortedMembers(Obj(members), names));
  }
}
