/** Records printed field by field into a buffer, as the two list renderers do, against the compact
    printer of the reference grammar. */
module JsonRecords {
  import opened Text
  import opened Json

  function StringField(key: string, escaped: string): string {
    "\"" + key + "\":\"" + escaped + "\""
  }

  function RawField(key: string, raw: string): string {
    "\"" + key + "\":" + raw
  }

  lemma PrintString(key: string, text: string)
    requires AllPlain(key)
    ensures PrintMember(Member(key, String(text))) == StringField(key, Escape(text))
  {
    EscapeIdentity(key);
    hide Escape;
    assert "\"" + key + "\":" + ("\"" + Escape(text) + "\"") == "\"" + key + "\":\"" + Escape(text) + "\"";
  }

  lemma PrintRaw(key: string, v: Json)
    requires AllPlain(key)
    ensures PrintMember(Member(key, v)) == RawField(key, Print(v))
  {
    EscapeIdentity(key);
    hide Escape, Print;
  }

  lemma PrintNat(key: string, n: nat)
    requires AllPlain(key)
    ensures PrintMember(Member(key, Number(n))) == RawField(key, NatString(n))
  {
    hide Escape, NatString, PrintMember;
    PrintRaw(key, Number(n));
  }

  lemma PrintInt(key: string, n: int)
    requires AllPlain(key)
    ensures PrintMember(Member(key, Number(n))) == RawField(key, IntString(n))
  {
    hide Escape, IntString, PrintMember;
    PrintRaw(key, Number(n));
  }

  function BoolText(b: bool): string {
    if b then "true" else "false"
  }

  lemma PrintBool(key: string, b: bool)
    requires AllPlain(key)
    ensures PrintMember(Member(key, Bool(b))) == RawField(key, BoolText(b))
  {
    hide Escape, PrintMember;
    PrintRaw(key, Bool(b));
  }

  /** A member at the end is printed after a comma. */
  lemma {:induction false} PrintMembersSnoc(members: seq<Member>, m: Member)
    requires members != []
    ensures PrintMembers(members + [m]) == PrintMembers(members) + "," + PrintMember(m)
  {
    hide PrintMember;
    if |members| == 1 {
      assert (members + [m])[1..] == [m];
    } else {
      PrintMembersSnoc(members[1..], m);
      assert (members + [m])[1..] == members[1..] + [m];
      Regroup(PrintMember(members[0]) + ",", PrintMembers(members[1..]) + ",", PrintMember(m));
      Regroup(PrintMember(members[0]) + ",", PrintMembers(members[1..]), ",");
    }
  }

  lemma {:induction false} PrintItemsSnoc(items: seq<Json>, v: Json)
    requires items != []
    ensures PrintItems(items + [v]) == PrintItems(items) + "," + Print(v)
  {
    hide Print;
    if |items| == 1 {
      assert (items + [v])[1..] == [v];
    } else {
      PrintItemsSnoc(items[1..], v);
      assert (items + [v])[1..] == items[1..] + [v];
      Regroup(Print(items[0]) + ",", PrintItems(items[1..]) + ",", Print(v));
      Regroup(Print(items[0]) + ",", PrintItems(items[1..]), ",");
    }
  }

  // ----- printing the next field: the pieces a renderer appends -----

  lemma FirstString(key: string, escaped: string)
    ensures "{" + StringField(key, escaped) == ("{\"" + key + "\":\"") + escaped + "\""
  {
  }

  lemma StringAfterString(done: string, key: string, escaped: string)
    ensures done + "\"" + "," + StringField(key, escaped) == done + ("\",\"" + key + "\":\"") + escaped + "\""
  {
  }

  lemma RawAfterString(done: string, key: string, raw: string)
    ensures done + "\"" + "," + RawField(key, raw) == done + ("\",\"" + key + "\":") + raw
  {
  }

  lemma RawAfterRaw(done: string, key: string, raw: string)
    ensures done + "," + RawField(key, raw) == done + (",\"" + key + "\":") + raw
  {
  }

  lemma StringAfterRaw(done: string, key: string, escaped: string)
    ensures done + "," + StringField(key, escaped) == done + (",\"" + key + "\":\"") + escaped + "\""
  {
  }

  // ----- an object as the text of its fields -----

  /** An open brace and fields separated by commas. */
  function Fields(fields: seq<string>): string {
    if fields == [] then "{"
    else if |fields| == 1 then "{" + fields[0]
    else Fields(fields[..|fields| - 1]) + "," + fields[|fields| - 1]
  }

  lemma FieldsSnoc(fields: seq<string>, f: string)
    requires fields != []
    ensures Fields(fields + [f]) == Fields(fields) + "," + f
  {
    assert (fields + [f])[..|fields|] == fields;
  }

  function MemberTexts(members: seq<Member>): (r: seq<string>)
    ensures |r| == |members| && forall i :: 0 <= i < |members| ==> r[i] == PrintMember(members[i])
  {
    seq(|members|, i requires 0 <= i < |members| => PrintMember(members[i]))
  }

  lemma {:induction false} FieldsOfMembers(members: seq<Member>)
    requires members != []
    ensures Fields(MemberTexts(members)) == "{" + PrintMembers(members)
  {
    hide PrintMember;
    var n := |members| - 1;
    if n > 0 {
      var front, last := members[..n], members[n];
      FieldsOfMembers(front);
      PrintMembersSnoc(front, last);
      assert members == front + [last];
      assert MemberTexts(members) == MemberTexts(front) + [PrintMember(last)];
      FieldsSnoc(MemberTexts(front), PrintMember(last));
      Regroup("{", PrintMembers(front) + ",", PrintMember(last));
      Regroup("{", PrintMembers(front), ",");
    }
  }

  lemma PrintObject(members: seq<Member>, fields: seq<string>)
    requires members != [] && MemberTexts(members) == fields
    ensures Print(Object(members)) == Fields(fields) + "}"
  {
    hide MemberTexts, PrintMembers, Fields;
    FieldsOfMembers(members);
  }

  // ----- an array as the text of its items -----

  /** An open bracket and items separated by commas. */
  function List(items: seq<string>): string {
    if items == [] then "["
    else if |items| == 1 then "[" + items[0]
    else List(items[..|items| - 1]) + "," + items[|items| - 1]
  }

  lemma ListSnoc(items: seq<string>, x: string)
    ensures List(items + [x]) == if items == [] then List(items) + x else List(items) + "," + x
  {
    assert (items + [x])[..|items|] == items;
  }

  function ItemTexts(items: seq<Json>): (r: seq<string>)
    ensures |r| == |items| && forall i :: 0 <= i < |items| ==> r[i] == Print(items[i])
  {
    seq(|items|, i requires 0 <= i < |items| => Print(items[i]))
  }

  lemma {:induction false} ListOfItems(items: seq<Json>)
    ensures List(ItemTexts(items)) == "[" + PrintItems(items)
  {
    hide Print;
    var n := |items| - 1;
    if n > 0 {
      var front, last := items[..n], items[n];
      ListOfItems(front);
      PrintItemsSnoc(front, last);
      assert items == front + [last];
      assert ItemTexts(items) == ItemTexts(front) + [Print(last)];
      ListSnoc(ItemTexts(front), Print(last));
      Regroup("[", PrintItems(front) + ",", Print(last));
      Regroup("[", PrintItems(front), ",");
    }
  }

  lemma PrintArray(items: seq<Json>, texts: seq<string>)
    requires ItemTexts(items) == texts
    ensures Print(Array(items)) == List(texts) + "]"
  {
    hide ItemTexts, PrintItems, List;
    ListOfItems(items);
  }

  /** The last byte says whether an item has been printed yet, if items end with a brace. */
  lemma LastByte(items: seq<string>)
    requires forall i :: 0 <= i < |items| ==> items[i] != "" && items[i][|items[i]| - 1] == '}'
    ensures List(items) != ""
    ensures List(items)[|List(items)| - 1] == if items == [] then '[' else '}'
  {
  }
}
