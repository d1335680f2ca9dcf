/**
 StateMachine/YCSBStateMachine.cc, the text helpers: the owner at the front of a
 lock request, and a record's row, "<field>:<value>|" for each field in order, of
 which one field is incremented.  std::map is a list of pairs in ascending order
 of its keys; stoull, stoll and to_string follow the C++ library.
 */
module YCSBRows {
  import opened Collections
  import opened Words

  const MIN_LONG: int := -0x8000_0000_0000_0000
  const MAX_LONG: int := 0x7FFF_FFFF_FFFF_FFFF
  const NO_OWNER: nat := 0

  // ---------- numbers ----------

  predicate IsDigit(c: char) {
    '0' <= c <= '9'
  }

  predicate IsSpace(c: char) {
    c in " \t\n\r" || c == 11 as char || c == 12 as char
  }

  function SkipSpaces(s: string): string {
    if s != "" && IsSpace(s[0]) then SkipSpaces(s[1..]) else s
  }

  // The longest prefix of digits.
  function Digits(s: string): (d: string)
    ensures d <= s && forall i :: 0 <= i < |d| ==> IsDigit(d[i])
  {
    if s != "" && IsDigit(s[0]) then [s[0]] + Digits(s[1..]) else ""
  }

  function Value(d: string): nat
    requires forall i :: 0 <= i < |d| ==> IsDigit(d[i])
  {
    if d == "" then 0
    else
      assert IsDigit(d[|d| - 1]);
      10 * Value(d[..|d| - 1]) + (d[|d| - 1] as int - '0' as int)
  }

  function Show(n: nat): (d: string)
    ensures d != "" && forall i :: 0 <= i < |d| ==> IsDigit(d[i])
  {
    if n < 10 then [(n + '0' as int) as char] else Show(n / 10) + [(n % 10 + '0' as int) as char]
  }

  // to_string of a signed number.
  function ToString(n: int): (s: string)
    ensures s != "" && (forall i :: 0 < i < |s| ==> IsDigit(s[i])) && (s[0] == '-' || IsDigit(s[0]))
  {
    if n < 0 then "-" + Show(-n) else Show(n)
  }

  lemma {:induction false} ValueOfShow(n: nat)
    ensures Value(Show(n)) == n
  {
    if n >= 10 {
      ValueOfShow(n / 10);
      assert Show(n)[..|Show(n)| - 1] == Show(n / 10);
    }
  }

  lemma {:induction false} DigitsOf(d: string, rest: string)
    requires forall i :: 0 <= i < |d| ==> IsDigit(d[i])
    requires rest == "" || !IsDigit(rest[0])
    ensures Digits(d + rest) == d
  {
    if d == "" {
      assert d + rest == rest;
    } else {
      DigitsOf(d[1..], rest);
      assert (d + rest)[1..] == d[1..] + rest;
      assert d == [d[0]] + d[1..];
    }
  }

  // An optional sign, then what follows it.
  function Unsigned(s: string): (bool, string) {
    if s != "" && s[0] == '-' then (true, s[1..])
    else if s != "" && s[0] == '+' then (false, s[1..])
    else (false, s)
  }

  // stoll of the whole text: spaces, a sign, digits and nothing else, in range.
  function WholeNumber(s: string): Option<int> {
    var (negative, rest) := Unsigned(SkipSpaces(s));
    var d := Digits(rest);
    var n := if negative then 0 - Value(d) else Value(d);
    if d == "" || d != rest || !(MIN_LONG <= n <= MAX_LONG) then None else Some(n)
  }

  lemma ShownDigits(n: nat)
    ensures Digits(Show(n)) == Show(n) && Value(Show(n)) == n
  {
    ValueOfShow(n);
    DigitsOf(Show(n), "");
    assert Show(n) + "" == Show(n);
  }

  lemma NoSpaces(s: string)
    requires s != "" && (s[0] == '-' || IsDigit(s[0]))
    ensures SkipSpaces(s) == s
  {
  }

  lemma NumberRoundTrip(n: int)
    requires MIN_LONG <= n <= MAX_LONG
    ensures WholeNumber(ToString(n)) == Some(n)
  {
    hide Show, Value, Digits;
    var s := ToString(n);
    var d := Show(if n < 0 then -n else n);
    ShownDigits(if n < 0 then -n else n);
    NoSpaces(s);
    if n < 0 {
      assert s[1..] == d;
    } else {
      assert IsDigit(d[0]);
    }
  }

  // stoull of a prefix of the text: trailing characters are ignored, a minus sign
  // negates modulo 2^64, and a number that does not fit is no owner.
  function Stoull(s: string): nat {
    var (negative, rest) := Unsigned(SkipSpaces(s));
    var d := Digits(rest);
    if d == "" || Value(d) >= WORD then NO_OWNER
    else if negative then (WORD - Value(d)) % WORD
    else Value(d)
  }

  // ---------- searching ----------

  // s.find(c): the first position of c, or the length.
  function Find(s: string, c: char): (i: nat)
    ensures i <= |s| && c !in s[..i] && (i < |s| ==> s[i] == c)
  {
    if s == "" || s[0] == c then 0
    else
      var i := 1 + Find(s[1..], c);
      assert s[..i] == [s[0]] + s[1..][..i - 1];
      i
  }

  lemma FindUnique(s: string, c: char, i: nat)
    requires i <= |s| && c !in s[..i] && (i < |s| ==> s[i] == c)
    ensures Find(s, c) == i
  {
  }

  // "<owner>" or "<owner>#<row>".
  function OwnerOf(s: string): nat {
    Stoull(s[..Find(s, '#')])
  }

  function RowOf(s: string): string {
    var i := Find(s, '#');
    if i == |s| then "" else s[i + 1..]
  }

  // What a client sends for a 64-bit owner and a row reads back.
  lemma OwnerRoundTrip(owner: nat, row: string)
    requires owner < WORD
    ensures OwnerOf(Show(owner)) == owner
    ensures OwnerOf(Show(owner) + "#" + row) == owner && RowOf(Show(owner) + "#" + row) == row
  {
    hide Show, Value, Digits, Find;
    var d := Show(owner);
    ShownDigits(owner);
    assert IsDigit(d[0]);
    NoSpaces(d);
    assert Stoull(d) == owner;
    var s := d + "#" + row;
    assert s[..|d|] == d && d[..|d|] == d;
    FindUnique(s, '#', |d|);
    FindUnique(d, '#', |d|);
    assert s[|d| + 1..] == row;
  }

  // ---------- which texts are numbers ----------

  // Spaces, a sign or none, digits, and then something that is no digit.
  ghost predicate StartsAsNumeral(s: string, spaces: string, sign: string, d: string, rest: string) {
    && s == spaces + (sign + (d + rest)) && sign in {"", "-", "+"} && d != ""
    && (forall i :: 0 <= i < |spaces| ==> IsSpace(spaces[i])) && (forall i :: 0 <= i < |d| ==> IsDigit(d[i]))
    && (rest == "" || !IsDigit(rest[0]))
  }

  ghost function SignedValue(sign: string, d: string): int
    requires forall i :: 0 <= i < |d| ==> IsDigit(d[i])
  {
    if sign == "-" then 0 - Value(d) else Value(d)
  }

  lemma {:induction false} SkipAll(spaces: string, t: string)
    requires (forall i :: 0 <= i < |spaces| ==> IsSpace(spaces[i])) && t != "" && !IsSpace(t[0])
    ensures SkipSpaces(spaces + t) == t
  {
    if spaces == "" {
      assert spaces + t == t;
    } else {
      assert (spaces + t)[1..] == spaces[1..] + t;
      SkipAll(spaces[1..], t);
    }
  }

  lemma {:induction false} Skipped(s: string) returns (spaces: string)
    ensures s == spaces + SkipSpaces(s) && forall i :: 0 <= i < |spaces| ==> IsSpace(spaces[i])
  {
    if s != "" && IsSpace(s[0]) {
      var rest := Skipped(s[1..]);
      spaces := [s[0]] + rest;
      assert s == [s[0]] + s[1..];
    } else {
      spaces := "";
    }
  }

  lemma UnsignedOf(sign: string, t: string)
    requires sign in {"", "-", "+"} && t != "" && IsDigit(t[0])
    ensures Unsigned(sign + t) == (sign == "-", t) && sign + t != "" && !IsSpace((sign + t)[0])
  {
    if sign == "" {
      assert sign + t == t;
    } else {
      assert (sign + t)[1..] == t;
    }
  }

  lemma {:induction false} DigitsEnd(s: string)
    ensures |Digits(s)| < |s| ==> !IsDigit(s[|Digits(s)|])
  {
    if s != "" && IsDigit(s[0]) {
      DigitsEnd(s[1..]);
    }
  }

  // What the parsers see of such a text.
  lemma NumeralParts(s: string, spaces: string, sign: string, d: string, rest: string)
    requires StartsAsNumeral(s, spaces, sign, d, rest)
    ensures Unsigned(SkipSpaces(s)) == (sign == "-", d + rest) && Digits(d + rest) == d
  {
    UnsignedOf(sign, d + rest);
    SkipAll(spaces, sign + (d + rest));
    DigitsOf(d, rest);
  }

  lemma SignOf(t: string) returns (sign: string)
    ensures sign in {"", "-", "+"} && t == sign + Unsigned(t).1 && Unsigned(t).0 == (sign == "-")
  {
    sign := if t != "" && t[0] in "-+" then [t[0]] else "";
    if t != "" {
      assert t == [t[0]] + t[1..];
    }
  }

  lemma AfterDigits(u: string) returns (rest: string)
    ensures u == Digits(u) + rest && (rest == "" || !IsDigit(rest[0]))
  {
    DigitsEnd(u);
    rest := u[|Digits(u)|..];
  }

  // And every text in which they see digits is such a text.
  lemma SeenIsNumeral(s: string) returns (spaces: string, sign: string, d: string, rest: string)
    requires Digits(Unsigned(SkipSpaces(s)).1) != ""
    ensures StartsAsNumeral(s, spaces, sign, d, rest)
    ensures Unsigned(SkipSpaces(s)) == (sign == "-", d + rest) && Digits(d + rest) == d
  {
    hide Digits, SkipSpaces, Unsigned, IsSpace, IsDigit;
    spaces := Skipped(s);
    var t := SkipSpaces(s);
    sign := SignOf(t);
    d := Digits(Unsigned(t).1);
    rest := AfterDigits(Unsigned(t).1);
  }

  // A field is a number exactly if it is spaces, a sign or none, and digits, and its
  // value fits 64 bits.
  lemma NumberGrammar(s: string, n: int)
    ensures WholeNumber(s) == Some(n) <==>
              && MIN_LONG <= n <= MAX_LONG
              && exists spaces, sign, d :: StartsAsNumeral(s, spaces, sign, d, "") && n == SignedValue(sign, d)
  {
    hide Digits, Value, SkipSpaces, Unsigned;
    if WholeNumber(s) == Some(n) {
      var spaces, sign, d, rest := SeenIsNumeral(s);
      assert rest == "";
    }
    if spaces, sign, d :| StartsAsNumeral(s, spaces, sign, d, "") && n == SignedValue(sign, d) {
      NumeralParts(s, spaces, sign, d, "");
      assert d + "" == d;
    }
  }

  // The owner in a lock request: the number at its start, if there is one that fits,
  // negated modulo 2^64 after a minus sign.
  lemma OwnerGrammar(s: string, row: string, spaces: string, sign: string, d: string, rest: string)
    requires '#' !in s && StartsAsNumeral(s, spaces, sign, d, rest)
    ensures var owner := if Value(d) >= WORD then NO_OWNER else if sign == "-" && Value(d) > 0 then WORD - Value(d) else Value(d);
      OwnerOf(s) == owner && OwnerOf(s + "#" + row) == owner
  {
    hide Digits, Value, SkipSpaces, Unsigned, Find;
    NumeralParts(s, spaces, sign, d, rest);
    BeforeHash(s, row);
    NegatedWord(Value(d));
  }

  lemma NegatedWord(n: nat)
    ensures 0 < n < WORD ==> (WORD - n) % WORD == WORD - n
    ensures n == 0 ==> (WORD - n) % WORD == 0
  {
  }

  lemma BeforeHash(s: string, row: string)
    requires '#' !in s
    ensures OwnerOf(s) == Stoull(s) && OwnerOf(s + "#" + row) == Stoull(s) && RowOf(s) == "" && RowOf(s + "#" + row) == row
  {
    hide Stoull, Find;
    var t := s + "#" + row;
    assert s[..|s|] == s && t[..|s|] == s && t[|s| + 1..] == row;
    FindUnique(s, '#', |s|);
    FindUnique(t, '#', |s|);
  }

  // A request that does not start with a number has no owner.
  lemma NoNumeralNoOwner(s: string, row: string)
    requires '#' !in s && forall spaces, sign, d, rest :: !StartsAsNumeral(s, spaces, sign, d, rest)
    ensures OwnerOf(s) == NO_OWNER && OwnerOf(s + "#" + row) == NO_OWNER
  {
    hide Digits, Value, SkipSpaces, Unsigned, Find, StartsAsNumeral;
    BeforeHash(s, row);
    if Digits(Unsigned(SkipSpaces(s)).1) != "" {
      var spaces, sign, d, rest := SeenIsNumeral(s);
      assert false;
    }
  }

  // ---------- fields ----------

  type Fields = seq<(string, string)>

  // The order of std::string.
  predicate Before(a: string, b: string) {
    if b == "" then false
    else if a == "" then true
    else if a[0] != b[0] then a[0] < b[0]
    else Before(a[1..], b[1..])
  }

  lemma {:induction false} BeforeTotal(a: string, b: string)
    ensures a == b || Before(a, b) || Before(b, a)
    ensures !(Before(a, b) && Before(b, a)) && !Before(a, a)
  {
    if a != "" && b != "" {
      BeforeTotal(a[1..], b[1..]);
      assert a == [a[0]] + a[1..] && b == [b[0]] + b[1..];
    }
    if a != "" {
      BeforeTotal(a[1..], a[1..]);
    }
  }

  lemma {:induction false} BeforeTransitive(a: string, b: string, c: string)
    requires Before(a, b) && Before(b, c)
    ensures Before(a, c)
  {
    if a != "" && b != "" && c != "" && a[0] == b[0] == c[0] {
      BeforeTransitive(a[1..], b[1..], c[1..]);
    }
  }

  ghost predicate Ascending(f: Fields) {
    forall i, j :: 0 <= i < j < |f| ==> Before(f[i].0, f[j].0)
  }

  // fields[k] = v.
  function Put(f: Fields, k: string, v: string): Fields {
    if f == [] || Before(k, f[0].0) then [(k, v)] + f
    else if k == f[0].0 then [(k, v)] + f[1..]
    else [f[0]] + Put(f[1..], k, v)
  }

  function Get(f: Fields, k: string): Option<string> {
    if f == [] then None
    else if f[0].0 == k then Some(f[0].1)
    else Get(f[1..], k)
  }

  // A map update: k has the value v, every other key what it had.
  lemma {:induction false} PutIsUpdate(f: Fields, k: string, v: string)
    requires Ascending(f)
    ensures Ascending(Put(f, k, v))
    ensures forall x :: Get(Put(f, k, v), x) == if x == k then Some(v) else Get(f, x)
    ensures forall p :: p in Put(f, k, v) ==> p == (k, v) || p in f
  {
    if f == [] {
    } else if Before(k, f[0].0) {
      forall j | 0 <= j < |f|
        ensures Before(k, f[j].0)
      {
        if j > 0 {
          BeforeTransitive(k, f[0].0, f[j].0);
        }
      }
      NotIn(f, k);
    } else if k != f[0].0 {
      BeforeTotal(k, f[0].0);
      PutIsUpdate(f[1..], k, v);
      var g := Put(f[1..], k, v);
      forall j | 0 <= j < |g|
        ensures Before(f[0].0, g[j].0)
      {
        assert g[j] in g;
        assert g[j] == (k, v) || g[j] in f[1..];
      }
    }
  }

  lemma {:induction false} NotIn(f: Fields, k: string)
    requires forall j :: 0 <= j < |f| ==> Before(k, f[j].0)
    ensures Get(f, k) == None
  {
    if f != [] {
      BeforeTotal(k, f[0].0);
      NotIn(f[1..], k);
    }
  }

  lemma {:induction false} PutLast(f: Fields, k: string, v: string)
    requires forall j :: 0 <= j < |f| ==> Before(f[j].0, k)
    ensures Put(f, k, v) == f + [(k, v)]
  {
    if f != [] {
      BeforeTotal(f[0].0, k);
      PutLast(f[1..], k, v);
    }
  }

  // ---------- rows ----------

  // One piece of a row, up to a bar; without a colon it is dropped.
  function AddPair(f: Fields, pair: string): Fields {
    var colon := Find(pair, ':');
    if colon == |pair| then f else Put(f, pair[..colon], pair[colon + 1..])
  }

  // What follows the last bar is dropped.
  function ParseInto(f: Fields, row: string): Fields
    decreases |row|
  {
    var next := Find(row, '|');
    if next == |row| then f else ParseInto(AddPair(f, row[..next]), row[next + 1..])
  }

  function Parse(row: string): Fields {
    ParseInto([], row)
  }

  function Print(f: Fields): string {
    if f == [] then "" else f[0].0 + ":" + f[0].1 + "|" + Print(f[1..])
  }

  predicate GoodName(k: string) {
    ':' !in k && '|' !in k
  }

  ghost predicate GoodFields(f: Fields) {
    Ascending(f) && forall p :: p in f ==> GoodName(p.0) && '|' !in p.1
  }

  lemma SliceWithout(s: string, c: char, i: nat, j: nat)
    requires i <= j <= |s| && c !in s
    ensures c !in s[i..j]
  {
  }

  lemma PutIsGood(f: Fields, k: string, v: string)
    requires GoodFields(f) && GoodName(k) && '|' !in v
    ensures GoodFields(Put(f, k, v))
  {
    hide Put, Ascending;
    PutIsUpdate(f, k, v);
  }

  lemma AddPairIsGood(f: Fields, pair: string)
    requires GoodFields(f) && '|' !in pair
    ensures GoodFields(AddPair(f, pair))
  {
    hide GoodFields, Put, Find;
    var colon := Find(pair, ':');
    if colon < |pair| {
      SliceWithout(pair, '|', 0, colon);
      SliceWithout(pair, '|', colon + 1, |pair|);
      assert pair[0..colon] == pair[..colon] && pair[colon + 1..|pair|] == pair[colon + 1..];
      PutIsGood(f, pair[..colon], pair[colon + 1..]);
    }
  }

  // Parsing gives fields in order, whose names have no separators.
  lemma {:induction false} ParseIsGood(f: Fields, row: string)
    requires GoodFields(f)
    ensures GoodFields(ParseInto(f, row))
    decreases |row|
  {
    hide GoodFields, AddPair, Find;
    var next := Find(row, '|');
    if next < |row| {
      AddPairIsGood(f, row[..next]);
      ParseIsGood(AddPair(f, row[..next]), row[next + 1..]);
    }
  }

  // This piece gives the field k a value.
  predicate Names(piece: string, k: string) {
    ':' !in k && |k| < |piece| && piece[..|k|] == k && piece[|k|] == ':'
  }

  // The value in the last piece that gives k one.
  function LastValue(pieces: seq<string>, k: string): Option<string> {
    if pieces == [] then None
    else if LastValue(pieces[1..], k).Some? then LastValue(pieces[1..], k)
    else if Names(pieces[0], k) then Some(pieces[0][|k| + 1..])
    else None
  }

  function Joined(pieces: seq<string>): string {
    if pieces == [] then "" else pieces[0] + "|" + Joined(pieces[1..])
  }

  lemma AddPairIsUpdate(f: Fields, pair: string)
    requires Ascending(f)
    ensures Ascending(AddPair(f, pair))
    ensures forall k :: Get(AddPair(f, pair), k) == if Names(pair, k) then Some(pair[|k| + 1..]) else Get(f, k)
  {
    hide Put, Get, Find, Ascending;
    var colon := Find(pair, ':');
    if colon < |pair| {
      PutIsUpdate(f, pair[..colon], pair[colon + 1..]);
    }
    forall k | Names(pair, k)
      ensures k == pair[..colon] && colon < |pair|
    {
      FindUnique(pair, ':', |k|);
    }
  }

  // What a row means, however it came about: a field has the value given in the last
  // piece that gives it one; pieces end with a bar, and what follows the last bar, or
  // has no colon, means nothing.
  lemma {:induction false} ParseReads(f: Fields, pieces: seq<string>, tail: string)
    requires Ascending(f) && (forall p :: p in pieces ==> '|' !in p) && '|' !in tail
    ensures forall k :: Get(ParseInto(f, Joined(pieces) + tail), k) == if LastValue(pieces, k).Some? then LastValue(pieces, k) else Get(f, k)
    decreases |pieces|
  {
    hide AddPair, Get, Find, Ascending, Names;
    if pieces == [] {
      assert Joined(pieces) + tail == tail;
      FindUnique(tail, '|', |tail|);
    } else {
      var row := Joined(pieces) + tail;
      var rest := Joined(pieces[1..]) + tail;
      assert row == pieces[0] + "|" + rest;
      assert pieces[0] in pieces;
      FindUnique(row, '|', |pieces[0]|);
      assert row[..|pieces[0]|] == pieces[0] && row[|pieces[0]| + 1..] == rest;
      AddPairIsUpdate(f, pieces[0]);
      ParseReads(AddPair(f, pieces[0]), pieces[1..], tail);
    }
  }

  lemma RowReads(pieces: seq<string>, tail: string, k: string)
    requires (forall p :: p in pieces ==> '|' !in p) && '|' !in tail
    ensures Get(Parse(Joined(pieces) + tail), k) == LastValue(pieces, k)
  {
    hide ParseInto;
    ParseReads([], pieces, tail);
  }

  // Printing and parsing loses nothing.
  lemma {:induction false} ParsePrint(f: Fields, g: Fields)
    requires GoodFields(f + g)
    ensures ParseInto(f, Print(g)) == f + g
    decreases |g|
  {
    if g == [] {
      assert f + g == f;
    } else {
      var (k, v) := g[0];
      var pair := k + ":" + v;
      var s := Print(g);
      var rest := Print(g[1..]);
      assert g[0] in f + g;
      assert s == pair + ("|" + rest);
      assert s[..|pair|] == pair && s[|pair| + 1..] == rest;
      FindUnique(s, '|', |pair|);
      assert pair[..|k|] == k && pair[|k| + 1..] == v;
      FindUnique(pair, ':', |k|);
      AppendsLast(f, g);
      assert f + g == (f + [(k, v)]) + g[1..];
      ParsePrint(f + [(k, v)], g[1..]);
    }
  }

  lemma AppendsLast(f: Fields, g: Fields)
    requires Ascending(f + g) && g != []
    ensures Put(f, g[0].0, g[0].1) == f + [g[0]]
  {
    forall j | 0 <= j < |f|
      ensures Before(f[j].0, g[0].0)
    {
      assert f[j] == (f + g)[j] && g[0] == (f + g)[|f|];
    }
    PutLast(f, g[0].0, g[0].1);
  }

  // ---------- incrementing ----------

  // The number in a field; a missing field counts as 0.
  function Number(row: string, field: string): Option<int> {
    match Get(Parse(row), field)
    case None => Some(0)
    case Some(v) => WholeNumber(v)
  }

  // value + 1 in 64 bits.
  function PlusOne(value: int): int {
    if value == MAX_LONG then MIN_LONG else value + 1
  }

  // The new row, if the field is a number.
  function Incremented(row: string, field: string): Option<string> {
    match Number(row, field)
    case None => None
    case Some(value) => Some(Print(Put(Parse(row), field, ToString(PlusOne(value)))))
  }

  method IncrementField(row: string, field: string) returns (ok: bool, newRow: string)
    ensures ok == Incremented(row, field).Some?
    ensures newRow == if ok then Incremented(row, field).value else row
  {
    hide Put, Get, Print, Find, WholeNumber, ToString;
    var fields: Fields := [];
    var last: nat := 0;
    var next := Find(row, '|');
    assert row[0..] == row;
    while last + next < |row|
      invariant last <= |row| && next == Find(row[last..], '|') <= |row| - last
      invariant ParseInto(fields, row[last..]) == Parse(row)
      decreases |row| - last
    {
      var rest := row[last..];
      var pair := row[last..last + next];
      assert rest[..next] == pair;
      var colon := Find(pair, ':');
      if colon != |pair| {
        fields := Put(fields, pair[..colon], pair[colon + 1..]);
      }
      assert rest[next + 1..] == row[last + next + 1..];
      last := last + next + 1;
      next := Find(row[last..], '|');
    }
    var value := 0;
    var it := Get(fields, field);
    if it.Some? {
      var parsed := WholeNumber(it.value);
      if parsed.None? {
        return false, row;
      }
      value := parsed.value;
    }
    fields := Put(fields, field, ToString(PlusOne(value)));
    return true, Print(fields);
  }

  // The new row parses to the old fields with only this one replaced, exactly when
  // the field's name has no separator in it.
  lemma IncrementIsUpdate(row: string, field: string)
    requires Number(row, field).Some?
    ensures Incremented(row, field).Some?
    ensures var updated := Put(Parse(row), field, ToString(PlusOne(Number(row, field).value)));
      Parse(Incremented(row, field).value) == updated <==> GoodName(field)
  {
    hide Put, Print, ParseInto, ToString, WholeNumber;
    var v := ToString(PlusOne(Number(row, field).value));
    var updated := Put(Parse(row), field, v);
    EmptyIsGood();
    ParseIsGood([], row);
    PutIsUpdate(Parse(row), field, v);
    GetIsIn(updated, field);
    ParseIsGood([], Print(updated));
    NoBars(PlusOne(Number(row, field).value));
    if GoodName(field) {
      assert [] + updated == updated;
      ParsePrint([], updated);
    }
  }

  lemma EmptyIsGood()
    ensures GoodFields([])
  {
  }

  lemma {:induction false} GetIsIn(f: Fields, k: string)
    requires Get(f, k).Some?
    ensures (k, Get(f, k).value) in f
  {
    if f[0].0 != k {
      GetIsIn(f[1..], k);
    }
  }

  lemma NoBars(n: int)
    ensures '|' !in ToString(n)
  {
    hide Show;
  }

  // A missing field counts as zero.
  lemma MissingBecomesOne(row: string, field: string)
    requires GoodName(field) && Get(Parse(row), field) == None
    ensures var r := Incremented(row, field);
      && r.Some? && Get(Parse(r.value), field) == Some("1")
      && forall x :: x != field ==> Get(Parse(r.value), x) == Get(Parse(row), x)
  {
    hide Put, Print, Parse;
    ParseFieldsGood(row);
    PutIsUpdate(Parse(row), field, ToString(1));
    IncrementIsUpdate(row, field);
  }

  // A field that is no number is left alone: the increment fails.
  lemma FailsIffNoNumber(row: string, field: string)
    ensures Incremented(row, field) == None <==> exists v :: Get(Parse(row), field) == Some(v) && forall n :: WholeNumber(v) != Some(n)
  {
    hide Put, Print, Parse, WholeNumber;
    match Get(Parse(row), field)
    case None =>
    case Some(v) => assert WholeNumber(v).Some? ==> WholeNumber(v) == Some(WholeNumber(v).value);
  }

  function Repeated(row: string, field: string, n: nat): Option<string> {
    if n == 0 then Some(row)
    else
      match Repeated(row, field, n - 1)
      case None => None
      case Some(r) => Incremented(r, field)
  }

  // n increments add n to the field and change no other.
  lemma {:induction false} IncrementsAdd(row: string, field: string, n: nat)
    requires GoodName(field) && Number(row, field).Some? && Number(row, field).value + n <= MAX_LONG
    ensures var r := Repeated(row, field, n);
      && r.Some? && Number(r.value, field) == Some(Number(row, field).value + n)
      && forall x :: x != field ==> Get(Parse(r.value), x) == Get(Parse(row), x)
  {
    hide Put, Print, Parse, ToString, WholeNumber;
    if n > 0 {
      IncrementsAdd(row, field, n - 1);
      var r := Repeated(row, field, n - 1).value;
      var v := Number(r, field).value;
      NumberInRange(row, field);
      EmptyIsGood();
      ParseFieldsGood(r);
      PutIsUpdate(Parse(r), field, ToString(PlusOne(v)));
      IncrementIsUpdate(r, field);
      NumberRoundTrip(v + 1);
    }
  }

  lemma ParseFieldsGood(row: string)
    ensures GoodFields(Parse(row))
  {
    EmptyIsGood();
    ParseIsGood([], row);
  }

  lemma NumberInRange(row: string, field: string)
    requires Number(row, field).Some?
    ensures MIN_LONG <= Number(row, field).value <= MAX_LONG
  {
  }
}
