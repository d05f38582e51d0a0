/** Normalised JSON text (core/utils/json_normalization.go), before Unicode normalisation of the output and with
    the text of a number taken as a token. Strings are sequences of code points; byte order of valid UTF-8 is
    code point order, so keys are sorted by code points. */
module NormalizedJson {
  import opened Wrappers

  datatype Json =
    | Null
    | Bool(b: bool)
    | Num(token: string)
    | Str(s: string)
    | Arr(items: seq<Json>)
    | Obj(members: map<string, Json>)

  // ----- Key order -----

  predicate Less(a: string, b: string) {
    b != "" && (a == "" || a[0] < b[0] || (a[0] == b[0] && Less(a[1..], b[1..])))
  }

  predicate StrictlySorted(keys: seq<string>) {
    forall i, j | 0 <= i < j < |keys| :: Less(keys[i], keys[j])
  }

  ghost function Elements(keys: seq<string>): set<string> {
    set k | k in keys
  }

  lemma {:induction false} LessTransitive(a: string, b: string, c: string)
    requires Less(a, b) && Less(b, c)
    ensures Less(a, c)
  {
    if a != "" && a[0] == b[0] && b[0] == c[0] {
      LessTransitive(a[1..], b[1..], c[1..]);
    }
  }

  lemma {:induction false} LessTotal(a: string, b: string)
    ensures a != b <==> Less(a, b) || Less(b, a)
    ensures !(Less(a, b) && Less(b, a))
  {
    if a == "" || b == "" {
    } else {
      LessTotal(a[1..], b[1..]);
      assert a == [a[0]] + a[1..] && b == [b[0]] + b[1..];
    }
  }

  /** Up to index k the keys agree; then `a` ends or has the smaller code point. */
  predicate Precedes(a: string, b: string, k: nat) {
    k <= |a| && k < |b| && a[..k] == b[..k] && (k == |a| || a[k] < b[k])
  }

  lemma {:induction false} LessPrecedes(a: string, b: string) returns (k: nat)
    requires Less(a, b)
    ensures Precedes(a, b, k)
  {
    if a == "" || a[0] < b[0] {
      k := 0;
    } else {
      var m := LessPrecedes(a[1..], b[1..]);
      k := m + 1;
      assert a[..k] == [a[0]] + a[1..][..m] && b[..k] == [b[0]] + b[1..][..m];
    }
  }

  /** k put before the first key that is not less. */
  function Insert(k: string, keys: seq<string>): seq<string> {
    if keys == [] then [k]
    else if Less(keys[0], k) then [keys[0]] + Insert(k, keys[1..])
    else [k] + keys
  }

  lemma {:induction false} InsertKeeps(k: string, keys: seq<string>)
    requires StrictlySorted(keys) && k !in keys
    ensures StrictlySorted(Insert(k, keys)) && Elements(Insert(k, keys)) == Elements(keys) + {k}
  {
    if keys == [] {
    } else {
      LessTotal(k, keys[0]);
      if Less(keys[0], k) {
        InsertKeeps(k, keys[1..]);
        var r := Insert(k, keys[1..]);
        assert Elements(keys) == {keys[0]} + Elements(keys[1..]);
        assert Elements([keys[0]] + r) == {keys[0]} + Elements(r);
        forall j | 0 <= j < |r|
          ensures Less(keys[0], r[j])
        {
          assert r[j] in Elements(r);
        }
      } else {
        forall j | 0 <= j < |keys|
          ensures Less(k, keys[j])
        {
          if j > 0 {
            LessTransitive(k, keys[0], keys[j]);
          }
        }
      }
    }
  }

  /** The keys in order: any way of enumerating the set gives the same sequence (see SortedUnique). */
  ghost function SortedKeys(s: set<string>): (keys: seq<string>)
    ensures StrictlySorted(keys) && Elements(keys) == s
  {
    if s == {} then [] else
    var k :| k in s;
    var rest := SortedKeys(s - {k});
    assert k !in Elements(rest);
    InsertKeeps(k, rest);
    Insert(k, rest)
  }

  /** A key is a proper beginning of a later one, or has the smaller code point where they first differ. */
  ghost predicate ComesBefore(a: string, b: string) {
    exists k: nat :: Precedes(a, b, k)
  }

  ghost predicate Ascends(keys: seq<string>) {
    forall i, j | 0 <= i < j < |keys| :: ComesBefore(keys[i], keys[j])
  }

  lemma SortedAscends(keys: seq<string>)
    requires StrictlySorted(keys)
    ensures Ascends(keys)
  {
    forall i, j | 0 <= i < j < |keys|
      ensures ComesBefore(keys[i], keys[j])
    {
      var k := LessPrecedes(keys[i], keys[j]);
    }
  }

  lemma NoElements(a: seq<string>)
    ensures a == [] <==> Elements(a) == {}
  {
    assert a != [] ==> a[0] in Elements(a);
  }

  lemma {:induction false} SortedUnique(a: seq<string>, b: seq<string>)
    requires StrictlySorted(a) && StrictlySorted(b) && Elements(a) == Elements(b)
    ensures a == b
  {
    NoElements(a);
    NoElements(b);
    if a == [] {
    } else {
      assert a[0] in Elements(b) && b[0] in Elements(a);
      var i :| 0 <= i < |b| && b[i] == a[0];
      var j :| 0 <= j < |a| && a[j] == b[0];
      LessTotal(a[0], b[0]);
      assert a[0] == b[0];
      TailElements(a);
      TailElements(b);
      SortedUnique(a[1..], b[1..]);
    }
  }

  lemma TailElements(a: seq<string>)
    requires StrictlySorted(a) && a != []
    ensures Elements(a[1..]) == Elements(a) - {a[0]}
  {
    LessTotal(a[0], a[0]);
    assert a == [a[0]] + a[1..];
    forall k | k in a[1..]
      ensures k != a[0]
    {
      var i :| 0 <= i < |a| - 1 && a[1..][i] == k;
      assert a[i + 1] == k;
    }
  }

  // ----- The text -----

  const HEX := "0123456789abcdef"

  /** Two lower-case hexadecimal digits. */
  function Hex2(n: nat): string
    requires n < 256
  {
    [HEX[n / 16], HEX[n % 16]]
  }

  /** What a JSON string writes for one code point; <, > and & are escaped too. */
  function EscapeChar(c: char): string {
    if c == '"' then "\\\""
    else if c == '\\' then "\\\\"
    else if c == '\n' then "\\n"
    else if c == '\r' then "\\r"
    else if c == '\t' then "\\t"
    else if c < ' ' || c == '<' || c == '>' || c == '&' then "\\u" + ("00" + Hex2(c as nat))
    else if c == '\U{2028}' then "\\u" + "2028"
    else if c == '\U{2029}' then "\\u" + "2029"
    else [c]
  }

  function Escaped(s: string): string {
    if s == "" then "" else EscapeChar(s[0]) + Escaped(s[1..])
  }

  function Quote(s: string): string {
    "\"" + Escaped(s) + "\""
  }

  ghost function Text(j: Json): string
    decreases j, 1
  {
    match j
    case Null => "null"
    case Bool(b) => if b then "true" else "false"
    case Num(token) => token
    case Str(s) => Quote(s)
    case Arr(items) => "[" + ItemsText(items) + "]"
    case Obj(members) => "{" + MembersText(j, SortedKeys(members.Keys)) + "}"
  }

  ghost function ItemsText(items: seq<Json>): string
    decreases items, 0
  {
    if items == [] then ""
    else Text(items[0]) + if |items| == 1 then "" else "," + ItemsText(items[1..])
  }

  ghost function MembersText(j: Json, keys: seq<string>): string
    requires j.Obj? && forall k | k in keys :: k in j.members
    decreases j, 0, 1 + |keys|
  {
    if keys == [] then ""
    else MemberText(j, keys[0]) + if |keys| == 1 then "" else "," + MembersText(j, keys[1..])
  }

  ghost function MemberText(j: Json, key: string): string
    requires j.Obj? && key in j.members
    decreases j, 0, 0
  {
    Quote(key) + ":" + Text(j.members[key])
  }

  /** Texts with a comma between each two. */
  function Joined(parts: seq<string>): string {
    if parts == [] then "" else if |parts| == 1 then parts[0] else parts[0] + "," + Joined(parts[1..])
  }

  ghost function MemberTexts(j: Json, keys: seq<string>): (parts: seq<string>)
    requires j.Obj? && forall k | k in keys :: k in j.members
    ensures |parts| == |keys|
    ensures forall i | 0 <= i < |keys| :: parts[i] == Quote(keys[i]) + ":" + Text(j.members[keys[i]])
  {
    if keys == [] then [] else [MemberText(j, keys[0])] + MemberTexts(j, keys[1..])
  }

  ghost function ItemTexts(items: seq<Json>): (parts: seq<string>)
    ensures |parts| == |items|
    ensures forall i | 0 <= i < |items| :: parts[i] == Text(items[i])
  {
    if items == [] then [] else [Text(items[0])] + ItemTexts(items[1..])
  }

  lemma {:induction false} MembersJoined(j: Json, keys: seq<string>, parts: seq<string>)
    requires j.Obj? && forall k | k in keys :: k in j.members
    requires parts == MemberTexts(j, keys)
    ensures MembersText(j, keys) == Joined(parts)
    decreases |keys|
  {
    if keys == [] {
    } else {
      assert parts[1..] == MemberTexts(j, keys[1..]);
      MembersJoined(j, keys[1..], parts[1..]);
      Assoc(parts[0], ",", Joined(parts[1..]));
    }
  }

  lemma {:induction false} ItemsJoined(items: seq<Json>, parts: seq<string>)
    requires parts == ItemTexts(items)
    ensures ItemsText(items) == Joined(parts)
  {
    if items == [] {
    } else {
      assert parts[1..] == ItemTexts(items[1..]);
      ItemsJoined(items[1..], parts[1..]);
      Assoc(parts[0], ",", Joined(parts[1..]));
    }
  }

  lemma {:induction false} PrecedesLess(a: string, b: string, k: nat)
    requires Precedes(a, b, k)
    ensures Less(a, b)
  {
    if k == 0 {
    } else {
      assert a[0] == a[..k][0] && b[0] == b[..k][0];
      assert a[1..][..k - 1] == a[..k][1..] && b[1..][..k - 1] == b[..k][1..];
      PrecedesLess(a[1..], b[1..], k - 1);
    }
  }

  lemma AscendsSorted(keys: seq<string>)
    requires Ascends(keys)
    ensures StrictlySorted(keys)
  {
    forall i, j | 0 <= i < j < |keys|
      ensures Less(keys[i], keys[j])
    {
      assert ComesBefore(keys[i], keys[j]);
      var k: nat :| Precedes(keys[i], keys[j], k);
      PrecedesLess(keys[i], keys[j], k);
    }
  }

  /** The text of an object: for the one list of its keys that ascends, the quoted keys with their values, in that order
      and with commas between them, in braces. */
  lemma ObjectText(j: Json, keys: seq<string>, parts: seq<string>)
    requires j.Obj? && Ascends(keys) && Elements(keys) == j.members.Keys
    requires |parts| == |keys|
    requires forall i | 0 <= i < |keys| ::
               keys[i] in j.members && parts[i] == Quote(keys[i]) + ":" + Text(j.members[keys[i]])
    ensures Text(j) == "{" + Joined(parts) + "}"
  {
    AscendsSorted(keys);
    SortedUnique(keys, SortedKeys(j.members.Keys));
    assert forall k | k in keys :: k in Elements(keys);
    assert parts == MemberTexts(j, keys);
    MembersJoined(j, keys, parts);
  }

  lemma ArrayText(items: seq<Json>, parts: seq<string>)
    requires |parts| == |items| && forall i | 0 <= i < |items| :: parts[i] == Text(items[i])
    ensures Text(Arr(items)) == "[" + Joined(parts) + "]"
  {
    assert parts == ItemTexts(items);
    ItemsJoined(items, parts);
  }

  predicate IsLowerHex(c: char) {
    '0' <= c <= '9' || 'a' <= c <= 'f'
  }

  /** The characters that a JSON string writes with a backslash and one letter. */
  function Letters(): map<char, char> {
    map['"' := '"', '\\' := '\\', '\n' := 'n', '\r' := 'r', '\t' := 't']
  }

  predicate IsSpecial(c: char) {
    c < ' ' || c in {'<', '>', '&', '\U{2028}', '\U{2029}'}
  }

  /** A code point is written with a backslash and a letter, as its number in four lower-case digits, or as it is. */
  lemma EscapeIs(c: char)
    ensures c in Letters() ==> EscapeChar(c) == ['\\', Letters()[c]]
    ensures c !in Letters() && IsSpecial(c) ==>
              && |EscapeChar(c)| == 6 && EscapeChar(c)[..2] == "\\u" && Hex4(EscapeChar(c)[2..]) == Some(c as nat)
              && forall i | 2 <= i < 6 :: IsLowerHex(EscapeChar(c)[i])
    ensures c !in Letters() && !IsSpecial(c) ==> EscapeChar(c) == [c]
  {
    if c !in Letters() && IsSpecial(c) {
      var h := LongEscapeIs(c);
      assert EscapeChar(c)[2..] == h;
      LowerHex(c);
    }
  }

  lemma LowerHex(c: char)
    requires c !in Letters() && IsSpecial(c)
    ensures |EscapeChar(c)| == 6 && forall i | 2 <= i < 6 :: IsLowerHex(EscapeChar(c)[i])
  {
    if c != '\U{2028}' && c != '\U{2029}' {
      var n := c as nat;
      HexIsLower(n / 16);
      HexIsLower(n % 16);
      var e := "\\u" + ("00" + Hex2(n));
      assert e[4] == HEX[n / 16] && e[5] == HEX[n % 16];
    }
  }

  lemma HexIsLower(d: nat)
    requires d < 16
    ensures IsLowerHex(HEX[d])
  {
  }

  lemma ScalarTexts(s: string, token: string)
    ensures Text(Null) == "null" && Text(Bool(true)) == "true" && Text(Bool(false)) == "false"
    ensures Text(Num(token)) == token && Text(Str(s)) == Quote(s)
  {
  }

  // ----- The marshaller -----

  /** What a writer was given so far, and how many characters it still takes. */
  datatype Held = Held(out: string, room: nat)

  /** A writer is given a text: it takes what there is room for, and reports an error exactly if that is not all. */
  predicate Wrote(before: Held, text: string, after: Held, ok: bool) {
    && ok == (|text| <= before.room)
    && after == Held(before.out + text[..Min(|text|, before.room)], before.room - Min(|text|, before.room))
  }

  /** A writer that fails after any number of characters, or does not come to that. */
  class Writer {
    var out: string
    var room: nat

    constructor (room: nat)
      ensures Now() == Held("", room)
    {
      out := "";
      this.room := room;
    }

    ghost function Now(): Held
      reads this
    {
      Held(out, room)
    }

    method Write(s: string) returns (ok: bool)
      modifies this
      ensures Wrote(old(Now()), s, Now(), ok)
    {
      var n := Min(|s|, room);
      out := out + s[..n];
      room := room - n;
      ok := n == |s|;
    }
  }

  lemma WroteThen(before: Held, a: string, mid: Held, b: string, after: Held, ok: bool)
    requires Wrote(before, a, mid, true) && Wrote(mid, b, after, ok)
    ensures Wrote(before, a + b, after, ok)
  {
    var n := Min(|b|, mid.room);
    assert (a + b)[..|a| + n] == a + b[..n];
    Assoc(before.out, a, b[..n]);
  }

  lemma WroteStops(before: Held, a: string, after: Held, b: string)
    requires Wrote(before, a, after, false)
    ensures Wrote(before, a + b, after, false)
  {
    assert (a + b)[..before.room] == a[..before.room];
  }

  /** Insertion in order, one key after the other. */
  method SortStrings(keys: seq<string>) returns (sorted: seq<string>)
    requires forall i, j | 0 <= i < j < |keys| :: keys[i] != keys[j]
    ensures StrictlySorted(sorted) && Ascends(sorted) && Elements(sorted) == Elements(keys)
  {
    sorted := [];
    var i := 0;
    while i < |keys|
      invariant i <= |keys| && StrictlySorted(sorted) && Elements(sorted) == Elements(keys[..i])
    {
      assert keys[i] !in keys[..i];
      assert keys[i] !in Elements(sorted);
      InsertKeeps(keys[i], sorted);
      sorted := Insert(keys[i], sorted);
      assert keys[..i + 1] == keys[..i] + [keys[i]];
      i := i + 1;
    }
    assert keys[..|keys|] == keys;
    SortedAscends(sorted);
  }

  /** The map may be ranged over in any order; the result is the same. */
  method OrderedKeys(data: map<string, Json>) returns (keys: seq<string>)
    ensures keys == SortedKeys(data.Keys) && Ascends(keys)
    ensures forall k | k in keys :: k in data
  {
    keys := [];
    var left := data.Keys;
    while left != {}
      invariant left <= data.Keys && Elements(keys) == data.Keys - left
      invariant forall i, j | 0 <= i < j < |keys| :: keys[i] != keys[j]
      decreases left
    {
      var k :| k in left;
      assert k !in Elements(keys);
      assert Elements(keys + [k]) == Elements(keys) + {k};
      keys := keys + [k];
      left := left - {k};
    }
    keys := SortStrings(keys);
    SortedUnique(keys, SortedKeys(data.Keys));
    SortedAscends(keys);
    assert forall k | k in keys :: k in Elements(keys);
  }

  method Marshal(w: Writer, data: Json) returns (ok: bool)
    modifies w
    ensures Wrote(old(w.Now()), Text(data), w.Now(), ok)
    decreases data, 2
  {
    match data
    case Obj(_) => ok := MarshalObject(w, data);
    case Arr(_) => ok := MarshalArray(w, data);
    case Num(token) => ok := w.Write(token);
    case Str(s) => ok := w.Write(Quote(s));
    case Bool(b) => ok := w.Write(if b then "true" else "false");
    case Null => ok := w.Write("null");
  }

  method MarshalObject(w: Writer, data: Json) returns (ok: bool)
    requires data.Obj?
    modifies w
    ensures Wrote(old(w.Now()), Text(data), w.Now(), ok)
    decreases data, 1
  {
    ghost var was, members := w.Now(), MembersText(data, SortedKeys(data.members.Keys));
    ok := w.Write("{");
    if !ok {
      WroteStops(was, "{", w.Now(), members);
      WroteStops(was, "{" + members, w.Now(), "}");
      return;
    }
    ghost var mid := w.Now();
    var keys := OrderedKeys(data.members);
    ok := MarshalMapOrderedKeys(w, keys, data);
    WroteThen(was, "{", mid, members, w.Now(), ok);
    if !ok {
      WroteStops(was, "{" + members, w.Now(), "}");
      return;
    }
    mid := w.Now();
    ok := w.Write("}");
    WroteThen(was, "{" + members, mid, "}", w.Now(), ok);
  }

  lemma Assoc(a: string, b: string, c: string)
    ensures (a + b) + c == a + (b + c)
  {
  }

  lemma MembersFrom(j: Json, keys: seq<string>, i: nat)
    requires j.Obj? && i < |keys| && forall k | k in keys :: k in j.members
    ensures MembersText(j, keys[i..]) == MemberText(j, keys[i]) + Comma(i, |keys|) + MembersText(j, keys[i + 1..])
  {
    assert keys[i..][1..] == keys[i + 1..];
    if i + 1 < |keys| {
      Assoc(MemberText(j, keys[i]), ",", MembersText(j, keys[i + 1..]));
    }
  }

  lemma ItemsFrom(items: seq<Json>, i: nat)
    requires i < |items|
    ensures ItemsText(items[i..]) == Text(items[i]) + Comma(i, |items|) + ItemsText(items[i + 1..])
  {
    assert items[i..][1..] == items[i + 1..];
    if i + 1 < |items| {
      Assoc(Text(items[i]), ",", ItemsText(items[i + 1..]));
    }
  }

  /** What stands behind the element at index i of n. */
  function Comma(i: int, n: int): string {
    if i == n - 1 then "" else ","
  }

  method WriteComma(w: Writer, comma: string) returns (ok: bool)
    modifies w
    ensures Wrote(old(w.Now()), comma, w.Now(), ok)
  {
    ok := true;
    if comma != "" {
      ok := w.Write(comma);
    }
  }

  method MarshalMember(w: Writer, key: string, data: Json, comma: string) returns (ok: bool)
    requires data.Obj? && key in data.members
    modifies w
    ensures Wrote(old(w.Now()), MemberText(data, key) + comma, w.Now(), ok)
    decreases data, 0, 0, 1
  {
    ghost var was, member := w.Now(), MemberText(data, key);
    ok := MarshalPair(w, key, data);
    if !ok {
      WroteStops(was, member, w.Now(), comma);
      return;
    }
    ghost var mid := w.Now();
    ok := WriteComma(w, comma);
    WroteThen(was, member, mid, comma, w.Now(), ok);
  }

  method MarshalPair(w: Writer, key: string, data: Json) returns (ok: bool)
    requires data.Obj? && key in data.members
    modifies w
    ensures Wrote(old(w.Now()), MemberText(data, key), w.Now(), ok)
    decreases data, 0, 0, 0
  {
    ghost var was, name, value := w.Now(), Quote(key), Text(data.members[key]);
    ok := w.Write(Quote(key));
    if !ok {
      WroteStops(was, name, w.Now(), ":");
      WroteStops(was, name + ":", w.Now(), value);
      return;
    }
    ghost var mid := w.Now();
    ok := w.Write(":");
    WroteThen(was, name, mid, ":", w.Now(), ok);
    if !ok {
      WroteStops(was, name + ":", w.Now(), value);
      return;
    }
    mid := w.Now();
    ok := Marshal(w, data.members[key]);
    WroteThen(was, name + ":", mid, value, w.Now(), ok);
  }

  method MarshalMapOrderedKeys(w: Writer, keys: seq<string>, data: Json) returns (ok: bool)
    requires data.Obj? && forall k | k in keys :: k in data.members
    modifies w
    ensures Wrote(old(w.Now()), MembersText(data, keys), w.Now(), ok)
    decreases data, 0, 1
  {
    ghost var was, written := w.Now(), "";
    ok := true;
    var index := 0;
    while index < |keys|
      invariant index <= |keys| && ok
      invariant Wrote(was, written, w.Now(), true)
      invariant MembersText(data, keys) == written + MembersText(data, keys[index..])
    {
      ghost var mid, piece := w.Now(), MemberText(data, keys[index]) + Comma(index, |keys|);
      ghost var rest := MembersText(data, keys[index + 1..]);
      MembersFrom(data, keys, index);
      ok := MarshalMember(w, keys[index], data, Comma(index, |keys|));
      if !ok {
        StopsInside(was, written, mid, piece, w.Now(), rest);
        return;
      }
      WroteThen(was, written, mid, piece, w.Now(), true);
      Assoc(written, piece, rest);
      written := written + piece;
      index := index + 1;
    }
  }

  lemma StopsInside(before: Held, written: string, mid: Held, piece: string, after: Held, rest: string)
    requires Wrote(before, written, mid, true) && Wrote(mid, piece, after, false)
    ensures Wrote(before, written + (piece + rest), after, false)
  {
    WroteStops(mid, piece, after, rest);
    WroteThen(before, written, mid, piece + rest, after, false);
  }

  method MarshalItem(w: Writer, item: Json, comma: string) returns (ok: bool)
    modifies w
    ensures Wrote(old(w.Now()), Text(item) + comma, w.Now(), ok)
    decreases item, 3
  {
    ghost var was, text := w.Now(), Text(item);
    ok := Marshal(w, item);
    if !ok {
      WroteStops(was, text, w.Now(), comma);
      return;
    }
    ghost var mid := w.Now();
    ok := WriteComma(w, comma);
    WroteThen(was, text, mid, comma, w.Now(), ok);
  }

  method MarshalArray(w: Writer, data: Json) returns (ok: bool)
    requires data.Arr?
    modifies w
    ensures Wrote(old(w.Now()), Text(data), w.Now(), ok)
    decreases data, 1
  {
    ghost var was, items := w.Now(), ItemsText(data.items);
    ok := w.Write("[");
    if !ok {
      WroteStops(was, "[", w.Now(), items);
      WroteStops(was, "[" + items, w.Now(), "]");
      return;
    }
    ghost var mid := w.Now();
    ok := MarshalItems(w, data.items, data);
    WroteThen(was, "[", mid, items, w.Now(), ok);
    if !ok {
      WroteStops(was, "[" + items, w.Now(), "]");
      return;
    }
    mid := w.Now();
    ok := w.Write("]");
    WroteThen(was, "[" + items, mid, "]", w.Now(), ok);
  }

  method MarshalItems(w: Writer, items: seq<Json>, ghost data: Json) returns (ok: bool)
    requires data.Arr? && data.items == items
    modifies w
    ensures Wrote(old(w.Now()), ItemsText(items), w.Now(), ok)
    decreases data, 0
  {
    ghost var was, written := w.Now(), "";
    ok := true;
    var index := 0;
    while index < |items|
      invariant index <= |items| && ok
      invariant Wrote(was, written, w.Now(), true) && ItemsText(items) == written + ItemsText(items[index..])
    {
      ghost var mid, piece := w.Now(), Text(items[index]) + Comma(index, |items|);
      ghost var rest := ItemsText(items[index + 1..]);
      ItemsFrom(items, index);
      ok := MarshalItem(w, items[index], Comma(index, |items|));
      if !ok {
        StopsInside(was, written, mid, piece, w.Now(), rest);
        return;
      }
      WroteThen(was, written, mid, piece, w.Now(), true);
      Assoc(written, piece, rest);
      written := written + piece;
      index := index + 1;
    }
  }

  // ----- A reader of JSON text -----

  function HexDigit(c: char): Option<nat> {
    if '0' <= c <= '9' then Some((c - '0') as nat)
    else if 'a' <= c <= 'f' then Some((c - 'a') as nat + 10)
    else if 'A' <= c <= 'F' then Some((c - 'A') as nat + 10)
    else None
  }

  function Hex4(s: string): Option<nat>
    requires |s| >= 4
    ensures Hex4(s).Some? ==> Hex4(s).value < 0x10000
  {
    match (HexDigit(s[0]), HexDigit(s[1]), HexDigit(s[2]), HexDigit(s[3]))
    case (Some(a), Some(b), Some(c), Some(d)) =>
      if a < 16 && b < 16 && c < 16 && d < 16 then Some(((a * 16 + b) * 16 + c) * 16 + d) else None
    case _ => None
  }

  /** The code point behind a backslash, and what follows the escape. Surrogates are not read. */
  function ReadEscape(s: string): (r: Option<(char, string)>)
    ensures r.Some? ==> |r.value.1| < |s|
  {
    if s == "" then None
    else if s[0] == '"' || s[0] == '\\' || s[0] == '/' then Some((s[0], s[1..]))
    else if s[0] == 'b' then Some(('\U{8}', s[1..]))
    else if s[0] == 'f' then Some(('\U{c}', s[1..]))
    else if s[0] == 'n' then Some(('\n', s[1..]))
    else if s[0] == 'r' then Some(('\r', s[1..]))
    else if s[0] == 't' then Some(('\t', s[1..]))
    else if s[0] == 'u' && |s| >= 5 then
      match Hex4(s[1..])
      case Some(n) => if 0xD800 <= n < 0xE000 then None else Some((n as char, s[5..]))
      case None => None
    else None
  }

  /** The rest of a string behind its opening quote, and what follows its closing quote. */
  function ReadString(s: string): (r: Option<(string, string)>)
    ensures r.Some? ==> |r.value.1| < |s|
    decreases |s|
  {
    if s == "" || s[0] < ' ' then None
    else if s[0] == '"' then Some(("", s[1..]))
    else if s[0] != '\\' then Prepend(s[0], ReadString(s[1..]))
    else match ReadEscape(s[1..])
         case Some((c, rest)) => Prepend(c, ReadString(rest))
         case None => None
  }

  function Prepend(c: char, r: Option<(string, string)>): Option<(string, string)> {
    match r
    case Some((t, rest)) => Some(([c] + t, rest))
    case None => None
  }

  predicate NumberChar(c: char) {
    '0' <= c <= '9' || c == '+' || c == '-' || c == '.' || c == 'e' || c == 'E'
  }

  function NumberLength(s: string): (n: nat)
    ensures n <= |s|
  {
    if s == "" || !NumberChar(s[0]) then 0 else 1 + NumberLength(s[1..])
  }

  predicate StartsWith(s: string, prefix: string) {
    prefix <= s
  }

  /** One value, and what follows it. */
  function ReadValue(s: string): (r: Option<(Json, string)>)
    ensures r.Some? ==> |r.value.1| < |s|
    decreases |s|, 0
  {
    if s == "" then None
    else if s[0] == '"' then
      match ReadString(s[1..])
      case Some((t, rest)) => Some((Str(t), rest))
      case None => None
    else if s[0] == '[' then
      if StartsWith(s[1..], "]") then Some((Arr([]), s[2..])) else
      match ReadItems(s[1..])
      case Some((items, rest)) => Some((Arr(items), rest))
      case None => None
    else if s[0] == '{' then
      if StartsWith(s[1..], "}") then Some((Obj(map[]), s[2..])) else
      match ReadMembers(s[1..])
      case Some((members, rest)) => Some((Obj(members), rest))
      case None => None
    else if StartsWith(s, "null") then Some((Null, s[4..]))
    else if StartsWith(s, "true") then Some((Bool(true), s[4..]))
    else if StartsWith(s, "false") then Some((Bool(false), s[5..]))
    else
      var n := NumberLength(s);
      if n == 0 then None else Some((Num(s[..n]), s[n..]))
  }

  function ReadItems(s: string): (r: Option<(seq<Json>, string)>)
    ensures r.Some? ==> |r.value.1| < |s|
    decreases |s|, 1
  {
    match ReadValue(s)
    case None => None
    case Some((item, rest)) =>
      if StartsWith(rest, "]") then Some(([item], rest[1..]))
      else if StartsWith(rest, ",") then
        match ReadItems(rest[1..])
        case Some((items, rest')) => Some(([item] + items, rest'))
        case None => None
      else None
  }

  /** Of members with the same key the last one counts. */
  function ReadMembers(s: string): (r: Option<(map<string, Json>, string)>)
    ensures r.Some? ==> |r.value.1| < |s|
    decreases |s|, 1
  {
    if !StartsWith(s, "\"") then None else
    match ReadString(s[1..])
    case None => None
    case Some((key, afterKey)) =>
      if !StartsWith(afterKey, ":") then None else
      match ReadValue(afterKey[1..])
      case None => None
      case Some((value, rest)) =>
        if StartsWith(rest, "}") then Some((map[key := value], rest[1..]))
        else if StartsWith(rest, ",") then
          match ReadMembers(rest[1..])
          case Some((members, rest')) => Some((map[key := value] + members, rest'))
          case None => None
        else None
  }

  // ----- Reading what was written -----

  lemma HexOfHex2(n: nat)
    requires n < 256
    ensures HexDigit(Hex2(n)[0]) == Some(n / 16) && HexDigit(Hex2(n)[1]) == Some(n % 16)
  {
    HexDigitOf(n / 16);
    HexDigitOf(n % 16);
  }

  lemma HexDigitOf(d: nat)
    requires d < 16
    ensures HexDigit(HEX[d]) == Some(d)
  {
  }

  lemma ReadPlain(c: char, rest: string)
    requires c != '"' && c != '\\' && c >= ' '
    ensures ReadString([c] + rest) == Prepend(c, ReadString(rest))
  {
    assert ([c] + rest)[1..] == rest;
  }

  lemma ReadShort(e: char, c: char, rest: string)
    requires ReadEscape([e] + rest) == Some((c, rest))
    ensures ReadString(['\\', e] + rest) == Prepend(c, ReadString(rest))
  {
    assert (['\\', e] + rest)[1..] == [e] + rest;
  }

  lemma ReadHex(h: string, c: char, rest: string)
    requires |h| == 4 && Hex4(h) == Some(c as nat)
    ensures ReadEscape(['u'] + (h + rest)) == Some((c, rest))
  {
    var s := ['u'] + (h + rest);
    assert s[1..] == h + rest;
    assert s[5..] == rest;
    SameHex(h, h + rest);
  }

  lemma SameHex(h: string, s: string)
    requires |h| == 4 && h <= s
    ensures Hex4(s) == Hex4(h)
  {
  }

  lemma ReadUnicode(h: string, c: char, rest: string)
    requires |h| == 4 && Hex4(h) == Some(c as nat)
    ensures ReadString("\\u" + h + rest) == Prepend(c, ReadString(rest))
  {
    ReadHex(h, c, rest);
    assert ("\\u" + h + rest)[1..] == ['u'] + (h + rest);
  }

  lemma Hex4OfHex2(n: nat)
    requires n < 256
    ensures Hex4("00" + Hex2(n)) == Some(n)
  {
    HexOfHex2(n);
    var h := "00" + Hex2(n);
    assert h[2] == Hex2(n)[0] && h[3] == Hex2(n)[1];
  }

  lemma ReadShortEscape(c: char, rest: string)
    requires |EscapeChar(c)| == 2
    ensures ReadString(EscapeChar(c) + rest) == Prepend(c, ReadString(rest))
  {
    var e := EscapeChar(c)[1];
    assert EscapeChar(c) == ['\\', e];
    assert ([e] + rest)[1..] == rest;
    ReadShort(e, c, rest);
  }

  lemma LongEscapeIs(c: char) returns (h: string)
    requires EscapeChar(c) != [c] && |EscapeChar(c)| > 2
    ensures EscapeChar(c) == "\\u" + h && |h| == 4 && Hex4(h) == Some(c as nat)
  {
    if c == '\U{2028}' {
      h := "2028";
      Separators();
    } else if c == '\U{2029}' {
      h := "2029";
      Separators();
    } else {
      h := ShortHex(c as nat);
    }
  }

  lemma Separators()
    ensures Hex4("2028") == Some(0x2028) && Hex4("2029") == Some(0x2029)
  {
  }

  lemma ShortHex(n: nat) returns (h: string)
    requires n < 256
    ensures h == "00" + Hex2(n) && |h| == 4 && Hex4(h) == Some(n)
  {
    Hex4OfHex2(n);
    h := "00" + Hex2(n);
  }

  lemma ReadLongEscape(c: char, rest: string)
    requires EscapeChar(c) != [c] && |EscapeChar(c)| > 2
    ensures ReadString(EscapeChar(c) + rest) == Prepend(c, ReadString(rest))
  {
    var h := LongEscapeIs(c);
    ReadUnicode(h, c, rest);
  }

  lemma ReadEscapedChar(c: char, rest: string)
    ensures ReadString(EscapeChar(c) + rest) == Prepend(c, ReadString(rest))
  {
    if EscapeChar(c) == [c] {
      ReadPlain(c, rest);
    } else if |EscapeChar(c)| == 2 {
      ReadShortEscape(c, rest);
    } else {
      ReadLongEscape(c, rest);
    }
  }

  lemma {:induction false} ReadEscaped(t: string, rest: string)
    ensures ReadString(Escaped(t) + "\"" + rest) == Some((t, rest))
  {
    if t == "" {
      assert Escaped(t) + "\"" + rest == "\"" + rest;
    } else {
      ReadEscaped(t[1..], rest);
      var tail := Escaped(t[1..]) + "\"" + rest;
      Enclose(EscapeChar(t[0]), Escaped(t[1..]), "\"", rest);
      ReadEscapedChar(t[0], tail);
      assert [t[0]] + t[1..] == t;
    }
  }

  /** Number text is not empty and is made of the characters numbers are written with. */
  predicate Token(t: string) {
    t != "" && forall i | 0 <= i < |t| :: NumberChar(t[i])
  }

  predicate Good(j: Json) {
    match j
    case Num(token) => Token(token)
    case Arr(items) => forall i | 0 <= i < |items| :: Good(items[i])
    case Obj(members) => forall k | k in members :: Good(members[k])
    case _ => true
  }

  /** Where a number before it must end. */
  predicate Stops(rest: string) {
    rest == "" || !NumberChar(rest[0])
  }

  lemma {:induction false} TokenLength(t: string, rest: string)
    requires (forall i | 0 <= i < |t| :: NumberChar(t[i])) && Stops(rest)
    ensures NumberLength(t + rest) == |t|
  {
    if t == "" {
      assert t + rest == rest;
    } else {
      assert (t + rest)[1..] == t[1..] + rest;
      TokenLength(t[1..], rest);
    }
  }

  lemma TextStart(j: Json)
    requires Good(j)
    ensures Text(j) != "" && Text(j)[0] != ']' && Text(j)[0] != '}'
  {
  }

  lemma ReadQuoted(t: string, rest: string)
    ensures StartsWith(Quote(t) + rest, "\"") && ReadString((Quote(t) + rest)[1..]) == Some((t, rest))
  {
    assert (Quote(t) + rest)[1..] == Escaped(t) + "\"" + rest;
    ReadEscaped(t, rest);
  }

  lemma ReadEnclosed(open: string, t: string, rest: string)
    requires open == "[" || open == "{"
    requires t != "" && t[0] != ']' && t[0] != '}'
    ensures open == "[" && ReadItems(t).Some? ==>
              ReadValue(open + t) == Some((Arr(ReadItems(t).value.0), ReadItems(t).value.1))
    ensures open == "{" && ReadMembers(t).Some? ==>
              ReadValue(open + t) == Some((Obj(ReadMembers(t).value.0), ReadMembers(t).value.1))
  {
    assert (open + t)[1..] == t;
  }

  lemma ReadEmpty(rest: string)
    ensures ReadValue("[]" + rest) == Some((Arr([]), rest)) && ReadValue("{}" + rest) == Some((Obj(map[]), rest))
  {
    assert ("[]" + rest)[1..] == "]" + rest && ("[]" + rest)[2..] == rest;
    assert ("{}" + rest)[1..] == "}" + rest && ("{}" + rest)[2..] == rest;
  }

  lemma ReadScalar(j: Json, rest: string)
    requires Good(j) && Stops(rest) && !j.Arr? && !j.Obj?
    ensures ReadValue(Text(j) + rest) == Some((j, rest))
  {
    var s := Text(j) + rest;
    match j
    case Null => assert s[4..] == rest;
    case Bool(b) => assert s[if b then 4 else 5..] == rest;
    case Num(token) =>
      TokenLength(token, rest);
      assert NumberChar(token[0]);
      assert s[..|token|] == token && s[|token|..] == rest;
    case Str(t) => ReadQuoted(t, rest);
  }

  lemma ItemsEnd(s: string, item: Json, rest: string)
    requires ReadValue(s) == Some((item, "]" + rest))
    ensures ReadItems(s) == Some(([item], rest))
  {
    assert ("]" + rest)[1..] == rest;
  }

  lemma ItemsGoOn(s: string, item: Json, more: string)
    requires ReadValue(s) == Some((item, "," + more)) && ReadItems(more).Some?
    ensures ReadItems(s) == Some(([item] + ReadItems(more).value.0, ReadItems(more).value.1))
  {
    assert ("," + more)[1..] == more;
    assert ("," + more)[0] == ',';
  }

  predicate MemberRead(s: string, key: string, value: Json, rest: string) {
    && StartsWith(s, "\"") && ReadString(s[1..]).Some?
    && var (k, afterKey) := ReadString(s[1..]).value;
       k == key && StartsWith(afterKey, ":") && ReadValue(afterKey[1..]) == Some((value, rest))
  }

  lemma MembersEnd(s: string, key: string, value: Json, rest: string)
    requires MemberRead(s, key, value, "}" + rest)
    ensures ReadMembers(s) == Some((map[key := value], rest))
  {
    assert ("}" + rest)[1..] == rest;
  }

  lemma MembersGoOn(s: string, key: string, value: Json, more: string)
    requires MemberRead(s, key, value, "," + more) && ReadMembers(more).Some?
    ensures ReadMembers(s) == Some((map[key := value] + ReadMembers(more).value.0, ReadMembers(more).value.1))
  {
    assert ("," + more)[1..] == more;
    assert ("," + more)[0] == ',';
  }

  /** Every tree is recovered from its text, whatever follows the text. */
  lemma {:induction false} ReadText(j: Json, rest: string)
    requires Good(j) && Stops(rest)
    ensures ReadValue(Text(j) + rest) == Some((j, rest))
    decreases j, 1
  {
    match j
    case Arr(items) => ReadArr(j, rest);
    case Obj(members) => ReadObj(j, rest);
    case _ => ReadScalar(j, rest);
  }

  lemma Enclose(open: string, t: string, close: string, rest: string)
    ensures (open + t + close) + rest == open + (t + close + rest)
  {
  }

  lemma ItemsStart(items: seq<Json>)
    requires items != [] && Good(items[0])
    ensures ItemsText(items) != "" && ItemsText(items)[0] == Text(items[0])[0] && ItemsText(items)[0] != ']'
    ensures ItemsText(items)[0] != '}'
  {
    TextStart(items[0]);
  }

  lemma {:induction false} ReadArr(j: Json, rest: string)
    requires Good(j) && j.Arr?
    ensures ReadValue(Text(j) + rest) == Some((j, rest))
    decreases j, 0
  {
    if j.items == [] {
      assert Text(j) + rest == "[]" + rest;
      ReadEmpty(rest);
    } else {
      var t := ItemsText(j.items) + "]" + rest;
      ReadItemsText(j.items, rest);
      ItemsStart(j.items);
      ReadEnclosed("[", t, rest);
      Enclose("[", ItemsText(j.items), "]", rest);
    }
  }

  lemma {:induction false} ReadObj(j: Json, rest: string)
    requires Good(j) && j.Obj?
    ensures ReadValue(Text(j) + rest) == Some((j, rest))
    decreases j, 0, 1, 0
  {
    var keys := SortedKeys(j.members.Keys);
    assert forall k :: k in keys <==> k in Elements(keys);
    if keys == [] {
      NoElements(keys);
      assert j.members == map[];
      assert Text(j) + rest == "{}" + rest;
      ReadEmpty(rest);
    } else {
      var t := MembersText(j, keys) + "}" + rest;
      ReadMembersText(j, keys, rest);
      ReadEnclosed("{", t, rest);
      Enclose("{", MembersText(j, keys), "}", rest);
      assert Restrict(j.members, keys) == j.members;
    }
  }

  lemma Regroup(a: string, b: string, c: string, d: string, e: string)
    ensures (a + (b + c)) + d + e == a + (b + (c + d + e))
    ensures (a + "") + d + e == a + (d + e)
  {
  }

  lemma {:induction false} ReadItemsText(items: seq<Json>, rest: string)
    requires items != [] && forall i | 0 <= i < |items| :: Good(items[i])
    ensures ReadItems(ItemsText(items) + "]" + rest) == Some((items, rest))
    decreases items, 0
  {
    var item, others := items[0], items[1..];
    var s := ItemsText(items) + "]" + rest;
    Regroup(Text(item), ",", ItemsText(others), "]", rest);
    assert items == [item] + others;
    if others == [] {
      ReadText(item, "]" + rest);
      ItemsEnd(s, item, rest);
      assert items == [item];
    } else {
      var more := ItemsText(others) + "]" + rest;
      ReadItemsText(others, rest);
      ReadText(item, "," + more);
      ItemsGoOn(s, item, more);
    }
  }

  function Restrict(members: map<string, Json>, keys: seq<string>): map<string, Json> {
    map k | k in keys && k in members :: members[k]
  }

  lemma RestrictCons(members: map<string, Json>, keys: seq<string>)
    requires keys != [] && keys[0] in members
    ensures Restrict(members, keys) == map[keys[0] := members[keys[0]]] + Restrict(members, keys[1..])
  {
  }

  lemma {:induction false} ReadMembersText(j: Json, keys: seq<string>, rest: string)
    requires Good(j) && j.Obj? && keys != [] && forall k | k in keys :: k in j.members
    ensures ReadMembers(MembersText(j, keys) + "}" + rest) == Some((Restrict(j.members, keys), rest))
    decreases j, 0, 0, |keys|
  {
    var key, others := keys[0], keys[1..];
    var s := MembersText(j, keys) + "}" + rest;
    Regroup(MemberText(j, key), ",", MembersText(j, others), "}", rest);
    RestrictCons(j.members, keys);
    if others == [] {
      ReadMember(j, key, "}" + rest);
      MembersEnd(s, key, j.members[key], rest);
      assert Restrict(j.members, keys) == map[key := j.members[key]];
    } else {
      var more := MembersText(j, others) + "}" + rest;
      ReadMembersText(j, others, rest);
      ReadMember(j, key, "," + more);
      MembersGoOn(s, key, j.members[key], more);
    }
  }

  /** The key and the value of a member are read; then comes what follows it. */
  lemma {:induction false} ReadMember(j: Json, key: string, rest: string)
    requires Good(j) && j.Obj? && key in j.members && Stops(rest)
    ensures MemberRead(MemberText(j, key) + rest, key, j.members[key], rest)
    decreases j, 0, 0, 0
  {
    var value := Text(j.members[key]);
    SplitMember(Quote(key), value, rest);
    ReadQuoted(key, ":" + value + rest);
    ReadText(j.members[key], rest);
  }

  lemma SplitMember(name: string, value: string, rest: string)
    ensures (name + ":" + value) + rest == name + (":" + value + rest)
    ensures (":" + value + rest)[0] == ':' && (":" + value + rest)[1..] == value + rest
  {
  }

  /** The text is unambiguous: trees with the same text are the same, up to what number tokens stand for. */
  lemma TextInjective(a: Json, b: Json)
    requires Good(a) && Good(b)
    ensures Text(a) == Text(b) <==> a == b
  {
    ReadText(a, "");
    ReadText(b, "");
    assert Text(a) + "" == Text(a) && Text(b) + "" == Text(b);
  }
}
