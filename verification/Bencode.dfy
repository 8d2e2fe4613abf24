/** Bencoding (BEP 3): the recursive parser and printer of src/bencode.cpp. A char stands for a byte. */
module Bencode {
  import opened Wrappers

  const INT64_MAX: int := 0x7fff_ffff_ffff_ffff
  const INT64_MIN: int := -0x8000_0000_0000_0000

  datatype Entry = Entry(key: string, value: Value)

  /** The entries of a dictionary are in the order of the `std::map` that holds them. */
  datatype Value = Int(n: int) | Str(s: string) | List(items: seq<Value>) | Dict(entries: seq<Entry>)

  // ---------- Numbers ----------

  predicate IsDigit(c: char) {
    '0' <= c <= '9'
  }

  function DigitChar(d: nat): (c: char)
    requires d < 10
    ensures IsDigit(c)
  {
    '0' + d as char
  }

  function DigitValue(c: char): (d: nat)
    requires IsDigit(c)
    ensures d < 10
  {
    c as int - '0' as int
  }

  function Decimal(n: nat): (s: string)
    ensures s != ""
  {
    if n < 10 then [DigitChar(n)] else Decimal(n / 10) + [DigitChar(n % 10)]
  }

  /** The number that the digits of `s` before any other character spell, added to ten times as many of `acc`. */
  function Spelled(s: string, acc: nat): nat {
    if s == "" || !IsDigit(s[0]) then acc else Spelled(s[1..], acc * 10 + DigitValue(s[0]))
  }

  /** A signed 64-bit decimal as the output stream prints it. */
  function SignedDecimal(n: int): string {
    if n < 0 then "-" + Decimal(-n) else Decimal(n)
  }

  function Clamped(n: int): int {
    if n > INT64_MAX then INT64_MAX else if n < INT64_MIN then INT64_MIN else n
  }

  /** `atol`: an optional sign, then digits, and what follows is ignored. */
  function Atol(s: string): (n: int)
    ensures INT64_MIN <= n <= INT64_MAX
  {
    if s != "" && s[0] == '-' then Clamped(0 - Spelled(s[1..], 0)) else Clamped(Spelled(s, 0))
  }

  predicate AllDigits(s: string) {
    forall i :: 0 <= i < |s| ==> IsDigit(s[i])
  }

  lemma {:induction false} DecimalDigits(n: nat)
    ensures AllDigits(Decimal(n))
  {
    if n >= 10 {
      DecimalDigits(n / 10);
    }
  }

  lemma {:induction false} SpelledConcat(a: string, b: string, acc: nat)
    requires AllDigits(a)
    ensures Spelled(a + b, acc) == Spelled(b, Spelled(a, acc))
  {
    if a == "" {
      assert a + b == b;
    } else {
      assert (a + b)[1..] == a[1..] + b;
      SpelledConcat(a[1..], b, acc * 10 + DigitValue(a[0]));
    }
  }

  lemma {:induction false} SpelledDecimal(n: nat)
    ensures Spelled(Decimal(n), 0) == n
  {
    if n >= 10 {
      DecimalDigits(n / 10);
      SpelledConcat(Decimal(n / 10), [DigitChar(n % 10)], 0);
      SpelledDecimal(n / 10);
    }
  }

  /** What a string of digits is worth to base ten, the highest first. */
  function Base10(s: string): int {
    if s == "" then 0 else 10 * Base10(s[..|s| - 1]) + (s[|s| - 1] as int - '0' as int)
  }

  /** Numbers are printed with the ten digits to base ten, without a zero in front. */
  lemma {:induction false} DecimalFormat(n: nat)
    ensures Base10(Decimal(n)) == n
    ensures forall i :: 0 <= i < |Decimal(n)| ==> '0' <= Decimal(n)[i] <= '9'
    ensures n > 0 ==> Decimal(n)[0] != '0'
    ensures n == 0 ==> Decimal(n) == "0"
  {
    if n >= 10 {
      DecimalFormat(n / 10);
      assert Decimal(n)[..|Decimal(n)| - 1] == Decimal(n / 10);
    }
  }

  /** Every 64-bit number survives printing and reading. */
  lemma AtolDecimal(n: int)
    requires INT64_MIN <= n <= INT64_MAX
    ensures Atol(SignedDecimal(n)) == n
  {
    if n < 0 {
      SpelledDecimal(-n);
      assert ("-" + Decimal(-n))[1..] == Decimal(-n);
    } else {
      SpelledDecimal(n);
      DecimalDigits(n);
    }
  }

  // ---------- Dictionaries ----------

  /** The order of `std::string`. */
  predicate Before(a: string, b: string) {
    if b == "" then false
    else if a == "" then true
    else if a[0] != b[0] then a[0] < b[0]
    else Before(a[1..], b[1..])
  }

  lemma {:induction false} BeforeTransitive(a: string, b: string, c: string)
    requires Before(a, b) && Before(b, c)
    ensures Before(a, c)
  {
    if a != "" && a[0] == b[0] == c[0] {
      BeforeTransitive(a[1..], b[1..], c[1..]);
    }
  }

  lemma {:induction false} BeforeTotal(a: string, b: string)
    ensures !Before(a, a)
    ensures a == b || (Before(a, b) <==> !Before(b, a))
  {
    if a != "" {
      BeforeTotal(a[1..], if b == "" then "" else b[1..]);
      if b != "" && a[0] == b[0] {
        assert a == [a[0]] + a[1..] && b == [b[0]] + b[1..];
      }
    }
  }

  ghost predicate Sorted(entries: seq<Entry>) {
    forall i, j :: 0 <= i < j < |entries| ==> Before(entries[i].key, entries[j].key)
  }

  function Lookup(entries: seq<Entry>, key: string): Option<Value> {
    if entries == [] then None
    else if entries[0].key == key then Some(entries[0].value)
    else Lookup(entries[1..], key)
  }

  /** `root[key] = value` on the ordered map. */
  function Assign(entries: seq<Entry>, key: string, value: Value): (r: seq<Entry>)
  {
    if entries == [] || Before(key, entries[0].key) then [Entry(key, value)] + entries
    else if entries[0].key == key then [Entry(key, value)] + entries[1..]
    else [entries[0]] + Assign(entries[1..], key, value)
  }

  lemma {:induction false} AssignKeys(entries: seq<Entry>, key: string, value: Value, bound: string)
    requires forall i :: 0 <= i < |entries| ==> Before(bound, entries[i].key)
    requires Before(bound, key)
    ensures forall i :: 0 <= i < |Assign(entries, key, value)| ==> Before(bound, Assign(entries, key, value)[i].key)
  {
    if entries != [] {
      AssignKeys(entries[1..], key, value, bound);
    }
  }

  /** The map stays in order. */
  lemma {:induction false} AssignSorted(entries: seq<Entry>, key: string, value: Value)
    requires Sorted(entries)
    ensures Sorted(Assign(entries, key, value))
  {
    if entries != [] {
      var first := entries[0].key;
      BeforeTotal(key, first);
      if Before(key, first) {
        forall i | 0 <= i < |entries| ensures Before(key, entries[i].key) {
          if i > 0 { BeforeTransitive(key, first, entries[i].key); }
        }
      } else if key != first {
        AssignSorted(entries[1..], key, value);
        AssignKeys(entries[1..], key, value, first);
      }
    }
  }

  /** Assigning to one key replaces what was there and touches no other key. */
  lemma {:induction false} AssignLookup(entries: seq<Entry>, key: string, value: Value, k: string)
    requires Sorted(entries)
    ensures Lookup(Assign(entries, key, value), k) == if k == key then Some(value) else Lookup(entries, k)
  {
    if entries != [] {
      var first := entries[0].key;
      BeforeTotal(key, first);
      if Before(key, first) {
      } else if key != first {
        AssignLookup(entries[1..], key, value, k);
      }
    }
  }

  /** A key behind all others goes to the end. */
  lemma {:induction false} AssignLast(entries: seq<Entry>, key: string, value: Value)
    requires forall i :: 0 <= i < |entries| ==> Before(entries[i].key, key)
    ensures Assign(entries, key, value) == entries + [Entry(key, value)]
  {
    if entries != [] {
      BeforeTotal(key, entries[0].key);
      AssignLast(entries[1..], key, value);
    }
  }

  /** Assigning one after the other. */
  function AssignAll(entries: seq<Entry>, pairs: seq<Entry>): seq<Entry>
    decreases |pairs|
  {
    if pairs == [] then entries else AssignAll(Assign(entries, pairs[0].key, pairs[0].value), pairs[1..])
  }

  lemma KeyLast(done: seq<Entry>, entries: seq<Entry>)
    requires Sorted(done + entries) && entries != []
    ensures forall i :: 0 <= i < |done| ==> Before(done[i].key, entries[0].key)
  {
    var all := done + entries;
    forall i | 0 <= i < |done| ensures Before(done[i].key, entries[0].key) {
      assert Before(all[i].key, all[|done|].key);
    }
  }

  lemma {:induction false} AssignAllSorted(done: seq<Entry>, entries: seq<Entry>)
    requires Sorted(done + entries)
    ensures AssignAll(done, entries) == done + entries
    decreases |entries|
  {
    if entries == [] {
      assert done + entries == done;
    } else {
      KeyLast(done, entries);
      AssignLast(done, entries[0].key, entries[0].value);
      assert done + [entries[0]] + entries[1..] == done + entries;
      AssignAllSorted(done + [entries[0]], entries[1..]);
    }
  }

  lemma {:induction false} AssignAllKeepsOrder(entries: seq<Entry>, pairs: seq<Entry>)
    requires Sorted(entries)
    ensures Sorted(AssignAll(entries, pairs))
    decreases |pairs|
  {
    if pairs != [] {
      AssignSorted(entries, pairs[0].key, pairs[0].value);
      AssignAllKeepsOrder(Assign(entries, pairs[0].key, pairs[0].value), pairs[1..]);
    }
  }

  lemma {:induction false} AssignAllOther(entries: seq<Entry>, pairs: seq<Entry>, k: string)
    requires Sorted(entries) && forall i :: 0 <= i < |pairs| ==> pairs[i].key != k
    ensures Lookup(AssignAll(entries, pairs), k) == Lookup(entries, k)
    decreases |pairs|
  {
    if pairs != [] {
      AssignSorted(entries, pairs[0].key, pairs[0].value);
      AssignLookup(entries, pairs[0].key, pairs[0].value, k);
      AssignAllOther(Assign(entries, pairs[0].key, pairs[0].value), pairs[1..], k);
    }
  }

  lemma {:induction false} AssignAllLast(entries: seq<Entry>, pairs: seq<Entry>, i: nat)
    requires Sorted(entries) && i < |pairs| && forall j :: i < j < |pairs| ==> pairs[j].key != pairs[i].key
    ensures Lookup(AssignAll(entries, pairs), pairs[i].key) == Some(pairs[i].value)
    decreases |pairs|
  {
    var first := Assign(entries, pairs[0].key, pairs[0].value);
    AssignSorted(entries, pairs[0].key, pairs[0].value);
    if i == 0 {
      AssignLookup(entries, pairs[0].key, pairs[0].value, pairs[0].key);
      AssignAllOther(first, pairs[1..], pairs[0].key);
    } else {
      AssignAllLast(first, pairs[1..], i - 1);
    }
  }

  // ---------- Parsing ----------

  /** What is read at a position and where it ends, or the error that `decode` returns. */
  datatype Parsed<T> = Got(value: T, next: nat) | Failed(error: int)

  predicate Ends<T>(r: Parsed<T>, p: nat, s: string) {
    if r.Got? then p < r.next <= |s| else r.error > 0 || r.error == -1
  }

  function DigitsEnd(s: string, p: nat): (q: nat)
    requires p <= |s|
    ensures p <= q <= |s|
    decreases |s| - p
  {
    if p < |s| && IsDigit(s[p]) then DigitsEnd(s, p + 1) else p
  }

  function NumberEnd(s: string, p: nat): (q: nat)
    requires p <= |s|
    ensures p <= q <= |s|
    decreases |s| - p
  {
    if p < |s| && (IsDigit(s[p]) || s[p] == '-') then NumberEnd(s, p + 1) else p
  }

  /** `i`, digits and signs, `e`. */
  function ParseInt(s: string, p: nat): (r: Parsed<int>)
    requires 0 < p < |s|
    ensures Ends(r, p, s)
  {
    var q := NumberEnd(s, p + 1);
    if q == |s| || s[q] != 'e' then Failed(p) else Got(Atol(s[p + 1..q]), q + 1)
  }

  /** A length, `:`, and that many bytes, behind which there must be at least one more. */
  function ParseStr(s: string, p: nat): (r: Parsed<string>)
    requires 0 < p < |s|
    ensures Ends(r, p, s) && if r.Got? then r.next < |s| else r.error == p
  {
    var q := DigitsEnd(s, p);
    if q == |s| || s[q] != ':' then Failed(p)
    else
      var len := Atol(s[p..q]);
      if len <= 0 || q + 1 + len >= |s| then Failed(p) else Got(s[q + 1..q + 1 + len], q + 1 + len)
  }

  function ParseItem(s: string, p: nat): (r: Parsed<Value>)
    requires 0 < p < |s|
    ensures Ends(r, p, s)
    decreases |s| - p, 1
  {
    if s[p] == 'i' then match ParseInt(s, p) { case Got(n, q) => Got(Int(n), q) case Failed(e) => Failed(e) }
    else if s[p] == 'l' || s[p] == 'd' then Parse(s, p)
    else match ParseStr(s, p) { case Got(t, q) => Got(Str(t), q) case Failed(e) => Failed(e) }
  }

  function ParseList(s: string, p: nat, items: seq<Value>): (r: Parsed<Value>)
    requires 0 < p <= |s|
    ensures r.Got? ==> p < r.next <= |s|
    ensures r.Failed? ==> r.error > 0 || r.error == -1
    decreases |s| - p, 2
  {
    if p == |s| then Failed(p)
    else if s[p] == 'e' then Got(List(items), p + 1)
    else
      match ParseItem(s, p)
      case Got(v, q) => ParseList(s, q, items + [v])
      case Failed(e) => Failed(e)
  }

  function ParseDict(s: string, p: nat, entries: seq<Entry>): (r: Parsed<Value>)
    requires 0 < p <= |s|
    ensures r.Got? ==> p < r.next <= |s|
    ensures r.Failed? ==> r.error > 0 || r.error == -1
    decreases |s| - p, 2
  {
    if p == |s| then Failed(p)
    else if s[p] == 'e' then Got(Dict(entries), p + 1)
    else if s[p] == 'i' || s[p] == 'l' || s[p] == 'd' then Failed(p)
    else
      match ParseStr(s, p)
      case Failed(e) => Failed(e)
      case Got(key, q) =>
        match ParseItem(s, q)
        case Got(v, q') => ParseDict(s, q', Assign(entries, key, v))
        case Failed(e) => Failed(e)
  }

  /** A list or a dictionary. */
  function Parse(s: string, p: nat): (r: Parsed<Value>)
    requires p <= |s|
    ensures Ends(r, p, s)
    decreases |s| - p, 0
  {
    if p < |s| && s[p] == 'l' then ParseList(s, p + 1, [])
    else if p < |s| && s[p] == 'd' then ParseDict(s, p + 1, [])
    else Failed(if p > 0 then p else -1)
  }

  // ---------- Printing ----------

  function Encoded(v: Value): string
    decreases v, 1
  {
    match v
    case Int(n) => "i" + SignedDecimal(n) + "e"
    case Str(t) => EncodedStr(t)
    case List(items) => "l" + EncodedItems(items) + "e"
    case Dict(entries) => "d" + EncodedEntries(entries) + "e"
  }

  function EncodedStr(t: string): string {
    Decimal(|t|) + ":" + t
  }

  function EncodedItems(items: seq<Value>): string
    decreases items, 0
  {
    if items == [] then "" else Encoded(items[0]) + EncodedItems(items[1..])
  }

  function EncodedEntries(entries: seq<Entry>): string
    decreases entries, 0
  {
    if entries == [] then ""
    else EncodedStr(entries[0].key) + Encoded(entries[0].value) + EncodedEntries(entries[1..])
  }

  /** The examples of BEP 3, section "bencoding". */
  lemma Examples()
    ensures Encoded(Str("spam")) == "4:spam" && Encoded(Int(3)) == "i3e" && Encoded(Int(-3)) == "i-3e"
    ensures Encoded(List([Str("spam"), Str("eggs")])) == "l4:spam4:eggse"
    ensures Encoded(Dict([Entry("cow", Str("moo")), Entry("spam", Str("eggs"))])) == "d3:cow3:moo4:spam4:eggse"
  {
    ListOfTwo(Str("spam"), Str("eggs"));
    DictOfTwo(Entry("cow", Str("moo")), Entry("spam", Str("eggs")));
    hide EncodedItems, EncodedEntries, EncodedStr, Decimal;
    ExampleWords();
  }

  lemma ExampleWords()
    ensures Decimal(3) == "3" && EncodedStr("spam") == "4:spam" && EncodedStr("eggs") == "4:eggs"
    ensures EncodedStr("cow") == "3:cow" && EncodedStr("moo") == "3:moo"
  {
    assert Decimal(3) == "3" && Decimal(4) == "4";
  }

  lemma ListOfTwo(a: Value, b: Value)
    ensures EncodedItems([a, b]) == Encoded(a) + Encoded(b)
  {
    hide Encoded;
    assert [a, b][1..] == [b] && [b][1..] == [];
    assert EncodedItems([b]) == Encoded(b);
  }

  lemma DictOfTwo(a: Entry, b: Entry)
    ensures EncodedEntries([a, b])
         == EncodedStr(a.key) + Encoded(a.value) + (EncodedStr(b.key) + Encoded(b.value))
  {
    hide Encoded, EncodedStr;
    assert [a, b][1..] == [b] && [b][1..] == [];
    assert EncodedEntries([b]) == EncodedStr(b.key) + Encoded(b.value);
  }

  // ---------- What is printed is read back ----------

  /** Values that survive: 64-bit numbers, strings and keys that are not empty, and dictionaries in order. */
  ghost predicate WellFormed(v: Value)
    decreases v
  {
    match v
    case Int(n) => INT64_MIN <= n <= INT64_MAX
    case Str(t) => 0 < |t| <= INT64_MAX
    case List(items) => forall x :: x in items ==> WellFormed(x)
    case Dict(entries) =>
      && Sorted(entries)
      && forall e :: e in entries ==> 0 < |e.key| <= INT64_MAX && WellFormed(e.value)
  }

  /** `t` is in `s` at `p`. */
  predicate At(s: string, p: nat, t: string) {
    p + |t| <= |s| && s[p..p + |t|] == t
  }

  lemma AtConcat(s: string, p: nat, a: string, b: string)
    ensures At(s, p, a + b) <==> At(s, p, a) && At(s, p + |a|, b)
  {
    if At(s, p, a) && At(s, p + |a|, b) {
      assert s[p..p + |a + b|] == s[p..p + |a|] + s[p + |a|..p + |a| + |b|];
    }
    if At(s, p, a + b) {
      assert s[p..p + |a|] == s[p..p + |a + b|][..|a|];
      assert s[p + |a|..p + |a| + |b|] == s[p..p + |a + b|][|a|..];
    }
  }

  lemma {:induction false} DigitsEndAt(s: string, p: nat, t: string)
    requires At(s, p, t) && AllDigits(t) && p + |t| < |s| && !IsDigit(s[p + |t|])
    ensures DigitsEnd(s, p) == p + |t|
    decreases |t|
  {
    if t != "" {
      assert s[p] == s[p..p + |t|][0];
      assert s[p + 1..p + 1 + |t[1..]|] == s[p..p + |t|][1..];
      DigitsEndAt(s, p + 1, t[1..]);
    }
  }

  lemma {:induction false} NumberEndAt(s: string, p: nat, t: string)
    requires At(s, p, t) && p + |t| < |s| && s[p + |t|] == 'e'
    requires forall i :: 0 <= i < |t| ==> IsDigit(t[i]) || t[i] == '-'
    ensures NumberEnd(s, p) == p + |t|
    decreases |t|
  {
    if t != "" {
      assert s[p] == s[p..p + |t|][0];
      assert s[p + 1..p + 1 + |t[1..]|] == s[p..p + |t|][1..];
      NumberEndAt(s, p + 1, t[1..]);
    }
  }

  lemma {:induction false} SpelledIsBase10(s: string)
    requires AllDigits(s)
    ensures Spelled(s, 0) == Base10(s)
    decreases |s|
  {
    if s != "" {
      var front, last := s[..|s| - 1], [s[|s| - 1]];
      assert s == front + last;
      SpelledIsBase10(front);
      SpelledConcat(front, last, 0);
      assert last[1..] == "";
    }
  }

  /** What is read as a number: digits up to `e`, a sign before them, in 64 bits. */
  lemma IntRead(s: string, p: nat, q: nat, negative: bool)
    requires 0 < p < q < |s| && s[q] == 'e' && (negative ==> p + 1 < q && s[p + 1] == '-')
    requires forall k :: (if negative then p + 2 else p + 1) <= k < q ==> '0' <= s[k] <= '9'
    ensures var n := if negative then -Base10(s[p + 2..q]) else Base10(s[p + 1..q]);
      ParseInt(s, p) == Got(if n > 0x7fff_ffff_ffff_ffff then 0x7fff_ffff_ffff_ffff
                            else if n < -0x8000_0000_0000_0000 then -0x8000_0000_0000_0000 else n, q + 1)
  {
    var t := s[p + 1..q];
    NumberEndAt(s, p + 1, t);
    var digits := if negative then s[p + 2..q] else t;
    assert negative ==> t[1..] == digits && t[0] == '-';
    assert AllDigits(digits);
    SpelledIsBase10(digits);
  }

  /** What is read as a string: the length in digits, `:`, and as many bytes, not none and not up to the very end. */
  lemma StrRead(s: string, p: nat, q: nat)
    requires 0 < p <= q < |s| && s[q] == ':' && forall k :: p <= k < q ==> '0' <= s[k] <= '9'
    requires Base10(s[p..q]) <= 0x7fff_ffff_ffff_ffff
    ensures var n := Base10(s[p..q]);
      ParseStr(s, p) == if 0 < n && q + 1 + n < |s| then Got(s[q + 1..q + 1 + n], q + 1 + n) else Failed(p)
  {
    var t := s[p..q];
    assert AllDigits(t);
    DigitsEndAt(s, p, t);
    SpelledIsBase10(t);
    assert t == "" || t[0] != '-';
  }

  /** Nothing else is. */
  lemma OnlyIntsRead(s: string, p: nat)
    requires 0 < p < |s| && ParseInt(s, p).Got?
    ensures var q := ParseInt(s, p).next - 1;
      p < q < |s| && s[q] == 'e' && forall k :: p < k < q ==> '0' <= s[k] <= '9' || s[k] == '-'
  {
    NumberEndStops(s, p + 1);
  }

  lemma {:induction false} NumberEndStops(s: string, p: nat)
    requires p <= |s|
    ensures forall k :: p <= k < NumberEnd(s, p) ==> '0' <= s[k] <= '9' || s[k] == '-'
    decreases |s| - p
  {
    if p < |s| && (IsDigit(s[p]) || s[p] == '-') {
      NumberEndStops(s, p + 1);
    }
  }

  lemma OnlyStrsRead(s: string, p: nat)
    requires 0 < p < |s| && ParseStr(s, p).Got?
    ensures var t, next := ParseStr(s, p).value, ParseStr(s, p).next; var q := next - |t| - 1;
      && p <= q < next < |s| && s[q] == ':' && t != "" && t == s[q + 1..next]
      && forall k :: p <= k < q ==> '0' <= s[k] <= '9'
  {
    DigitsEndStops(s, p);
  }

  lemma {:induction false} DigitsEndStops(s: string, p: nat)
    requires p <= |s|
    ensures forall k :: p <= k < DigitsEnd(s, p) ==> '0' <= s[k] <= '9'
    decreases |s| - p
  {
    if p < |s| && IsDigit(s[p]) {
      DigitsEndStops(s, p + 1);
    }
  }

  lemma IntBack(s: string, p: nat, n: int)
    requires 0 < p && At(s, p, Encoded(Int(n))) && INT64_MIN <= n <= INT64_MAX
    ensures ParseInt(s, p) == Got(n, p + |Encoded(Int(n))|)
  {
    var t := SignedDecimal(n);
    AtConcat(s, p, "i" + t, "e");
    AtConcat(s, p, "i", t);
    DecimalDigits(if n < 0 then -n else n);
    assert s[p + 1 + |t|] == s[p + 1 + |t|..p + 1 + |t| + 1][0];
    NumberEndAt(s, p + 1, t);
    AtolDecimal(n);
  }

  lemma StrBack(s: string, p: nat, t: string)
    requires 0 < p && At(s, p, EncodedStr(t)) && p + |EncodedStr(t)| < |s| && 0 < |t| <= INT64_MAX
    ensures ParseStr(s, p) == Got(t, p + |EncodedStr(t)|)
  {
    var d := Decimal(|t|);
    AtConcat(s, p, d + ":", t);
    AtConcat(s, p, d, ":");
    DecimalDigits(|t|);
    assert s[p + |d|] == s[p + |d|..p + |d| + 1][0];
    DigitsEndAt(s, p, d);
    AtolDecimal(|t|);
  }

  lemma FirstDigit(t: string)
    ensures EncodedStr(t) != "" && IsDigit(EncodedStr(t)[0])
  {
    DecimalDigits(|t|);
    assert EncodedStr(t)[0] == Decimal(|t|)[0];
  }

  /** What a value begins with tells the parser which kind it is. */
  lemma FirstChar(v: Value)
    ensures Encoded(v) != ""
    ensures match v
            case Int(_) => Encoded(v)[0] == 'i'
            case List(_) => Encoded(v)[0] == 'l'
            case Dict(_) => Encoded(v)[0] == 'd'
            case Str(t) => IsDigit(Encoded(v)[0])
  {
    if v.Str? {
      FirstDigit(v.s);
    }
  }

  lemma {:induction false} ItemBack(s: string, p: nat, v: Value)
    requires WellFormed(v) && 0 < p && At(s, p, Encoded(v)) && p + |Encoded(v)| < |s|
    ensures ParseItem(s, p) == Got(v, p + |Encoded(v)|)
    decreases v, 1
  {
    FirstChar(v);
    assert s[p] == s[p..p + |Encoded(v)|][0];
    match v
    case Int(n) => IntBack(s, p, n);
    case Str(t) => StrBack(s, p, t);
    case _ => RootBack(s, p, v);
  }

  lemma {:induction false} ItemsBack(s: string, p: nat, done: seq<Value>, items: seq<Value>)
    requires 0 < p && At(s, p, EncodedItems(items) + "e") && forall x :: x in items ==> WellFormed(x)
    ensures ParseList(s, p, done) == Got(List(done + items), p + |EncodedItems(items)| + 1)
    decreases items, 0
  {
    AtConcat(s, p, EncodedItems(items), "e");
    hide WellFormed, Sorted, ParseItem, ParseDict, Encoded;
    if items == [] {
      assert s[p] == s[p..p + 1][0];
      assert done + items == done;
    } else {
      var v, rest := items[0], items[1..];
      AtConcat(s, p, Encoded(v), EncodedItems(rest));
      AtConcat(s, p + |Encoded(v)|, EncodedItems(rest), "e");
      FirstChar(v);
      assert s[p] == s[p..p + |Encoded(v)|][0];
      ItemBack(s, p, v);
      ItemsBack(s, p + |Encoded(v)|, done + [v], rest);
      assert done + [v] + rest == done + items;
    }
  }

  lemma {:induction false} EntriesBack(s: string, p: nat, done: seq<Entry>, entries: seq<Entry>)
    requires 0 < p && At(s, p, EncodedEntries(entries) + "e")
    requires forall e :: e in entries ==> 0 < |e.key| <= INT64_MAX && WellFormed(e.value)
    ensures ParseDict(s, p, done) == Got(Dict(AssignAll(done, entries)), p + |EncodedEntries(entries)| + 1)
    decreases entries, 1
  {
    AtConcat(s, p, EncodedEntries(entries), "e");
    if entries == [] {
      assert s[p] == s[p..p + 1][0];
    } else {
      EntryBack(s, p, done, entries);
    }
  }

  lemma {:induction false} EntryBack(s: string, p: nat, done: seq<Entry>, entries: seq<Entry>)
    requires 0 < p && At(s, p, EncodedEntries(entries)) && At(s, p, EncodedEntries(entries) + "e")
    requires entries != []
    requires forall e :: e in entries ==> 0 < |e.key| <= INT64_MAX && WellFormed(e.value)
    ensures ParseDict(s, p, done) == Got(Dict(AssignAll(done, entries)), p + |EncodedEntries(entries)| + 1)
    decreases entries, 0
  {
    hide Sorted, Before, WellFormed, ParseStr, ParseItem, ParseList, Encoded, EncodedStr, Assign;
    var e, rest := entries[0], entries[1..];
    var key, value := EncodedStr(e.key), Encoded(e.value);
    AtConcat(s, p, key + value, EncodedEntries(rest));
    AtConcat(s, p, key, value);
    AtConcat(s, p, key + value, EncodedEntries(rest) + "e");
    assert EncodedEntries(entries) + "e" == key + value + (EncodedEntries(rest) + "e");
    FirstDigit(e.key);
    FirstChar(e.value);
    assert s[p] == s[p..p + |key|][0];
    StrBack(s, p, e.key);
    ItemBack(s, p + |key|, e.value);
    EntriesBack(s, p + |key| + |value|, Assign(done, e.key, e.value), rest);
  }

  lemma {:induction false} RootBack(s: string, p: nat, v: Value)
    requires WellFormed(v) && (v.List? || v.Dict?) && At(s, p, Encoded(v))
    ensures Parse(s, p) == Got(v, p + |Encoded(v)|)
    decreases v, 0
  {
    hide Sorted, Before, ParseList, ParseDict, EncodedItems, EncodedEntries, Decimal;
    FirstChar(v);
    assert s[p] == s[p..p + |Encoded(v)|][0];
    if v.List? {
      var rest := EncodedItems(v.items) + "e";
      assert Encoded(v) == "l" + rest && [] + v.items == v.items;
      AtConcat(s, p, "l", rest);
      ItemsBack(s, p + 1, [], v.items);
    } else {
      var rest := EncodedEntries(v.entries) + "e";
      assert Encoded(v) == "d" + rest && [] + v.entries == v.entries;
      AtConcat(s, p, "d", rest);
      EntriesBack(s, p + 1, [], v.entries);
      AssignAllSorted([], v.entries);
    }
  }

  /** Whatever the order of the keys, and however often they occur, a dictionary is read as the map in which each key
      has the value of its last occurrence. */
  lemma AnyOrderBack(pairs: seq<Entry>) returns (entries: seq<Entry>)
    requires forall e :: e in pairs ==> 0 < |e.key| <= INT64_MAX && WellFormed(e.value)
    ensures var s := "d" + EncodedEntries(pairs) + "e"; Parse(s, 0) == Got(Dict(entries), |s|)
    ensures Sorted(entries)
    ensures forall i :: 0 <= i < |pairs| && (forall j :: i < j < |pairs| ==> pairs[j].key != pairs[i].key) ==>
              Lookup(entries, pairs[i].key) == Some(pairs[i].value)
    ensures forall k :: (forall i :: 0 <= i < |pairs| ==> pairs[i].key != k) ==> Lookup(entries, k) == None
  {
    var rest := EncodedEntries(pairs) + "e";
    var s := "d" + rest;
    assert "d" + EncodedEntries(pairs) + "e" == s;
    assert s[1..1 + |rest|] == rest;
    EntriesBack(s, 1, [], pairs);
    entries := AssignAll([], pairs);
    AssignAllKeepsOrder([], pairs);
    forall i | 0 <= i < |pairs| && (forall j :: i < j < |pairs| ==> pairs[j].key != pairs[i].key)
      ensures Lookup(entries, pairs[i].key) == Some(pairs[i].value)
    {
      AssignAllLast([], pairs, i);
    }
    forall k | forall i :: 0 <= i < |pairs| ==> pairs[i].key != k ensures Lookup(entries, k) == None {
      AssignAllOther([], pairs, k);
    }
  }

  // ---------- What is accepted is well formed ----------

  lemma {:induction false} AssignEntries(entries: seq<Entry>, key: string, value: Value)
    ensures forall e :: e in Assign(entries, key, value) ==> e in entries || e == Entry(key, value)
  {
    if entries != [] {
      AssignEntries(entries[1..], key, value);
    }
  }

  lemma {:induction false} ItemAccepted(s: string, p: nat)
    requires 0 < p < |s|
    ensures var r := ParseItem(s, p); r.Got? ==> WellFormed(r.value)
    decreases |s| - p, 1
  {
    if s[p] == 'l' || s[p] == 'd' {
      Accepted(s, p);
    }
  }

  lemma {:induction false} ItemsAccepted(s: string, p: nat, items: seq<Value>)
    requires 0 < p <= |s| && forall x :: x in items ==> WellFormed(x)
    ensures var r := ParseList(s, p, items); r.Got? ==> r.value.List? && WellFormed(r.value)
    decreases |s| - p, 2
  {
    if p < |s| && s[p] != 'e' {
      ItemAccepted(s, p);
      match ParseItem(s, p) {
        case Got(v, q) => ItemsAccepted(s, q, items + [v]);
        case Failed(_) =>
      }
    }
  }

  lemma {:induction false} EntriesAccepted(s: string, p: nat, entries: seq<Entry>)
    requires 0 < p <= |s| && WellFormed(Dict(entries))
    ensures var r := ParseDict(s, p, entries); r.Got? ==> r.value.Dict? && WellFormed(r.value)
    decreases |s| - p, 2
  {
    if p < |s| && s[p] != 'e' && s[p] != 'i' && s[p] != 'l' && s[p] != 'd' && ParseStr(s, p).Got? {
      var key, q := ParseStr(s, p).value, ParseStr(s, p).next;
      ItemAccepted(s, q);
      match ParseItem(s, q) {
        case Got(v, q') =>
          AssignSorted(entries, key, v);
          AssignEntries(entries, key, v);
          EntriesAccepted(s, q', Assign(entries, key, v));
        case Failed(_) =>
      }
    }
  }

  /** Whatever the parser accepts is a list or dictionary that survives. */
  lemma {:induction false} Accepted(s: string, p: nat)
    requires p <= |s|
    ensures var r := Parse(s, p); r.Got? ==> (r.value.List? || r.value.Dict?) && WellFormed(r.value)
    decreases |s| - p, 0
  {
    if p < |s| && s[p] == 'l' {
      ItemsAccepted(s, p + 1, []);
    } else if p < |s| && s[p] == 'd' {
      EntriesAccepted(s, p + 1, []);
    }
  }

  /** Decoding what was encoded gives it back and consumes every byte exactly for lists and dictionaries of such
      values. An empty string, for one, is printed but not accepted. */
  lemma RoundTrip(v: Value)
    ensures Parse(Encoded(v), 0) == Got(v, |Encoded(v)|) <==> WellFormed(v) && (v.List? || v.Dict?)
  {
    Accepted(Encoded(v), 0);
    if WellFormed(v) && (v.List? || v.Dict?) {
      RootBack(Encoded(v), 0, v);
    }
  }

  /** Printing what was accepted and parsing it again gives the same value. */
  lemma AcceptedSurvives(s: string, p: nat)
    requires p <= |s| && Parse(s, p).Got?
    ensures var v := Parse(s, p).value; Parse(Encoded(v), 0) == Got(v, |Encoded(v)|)
  {
    Accepted(s, p);
    RoundTrip(Parse(s, p).value);
  }

  // ---------- decode and encode ----------

  /** The number that `i` at `start` begins; `ok` is false when it does not end with `e`. */
  method ReadInt(str: string, start: nat) returns (ok: bool, begin: nat, value: int)
    requires 0 < start < |str|
    ensures start < begin <= |str|
    ensures match ParseInt(str, start) case Got(n, q) => ok && value == n && begin == q case Failed(_) => !ok
  {
    begin := start + 1;
    var digits := "";
    while begin < |str| && str[begin] != 'e' && (IsDigit(str[begin]) || str[begin] == '-')
      invariant start < begin <= |str| && digits == str[start + 1..begin]
      invariant NumberEnd(str, start + 1) == NumberEnd(str, begin)
    {
      digits := digits + [str[begin]];
      begin := begin + 1;
    }
    if begin >= |str| || str[begin] != 'e' {
      return false, begin, 0;
    }
    value := Atol(digits);
    begin, ok := begin + 1, true;
  }

  /** The string whose length is at `start`. */
  method ReadStr(str: string, start: nat) returns (ok: bool, begin: nat, value: string)
    requires 0 < start < |str|
    ensures start <= begin <= |str|
    ensures match ParseStr(str, start) case Got(t, q) => ok && value == t && begin == q case Failed(_) => !ok
  {
    begin := start;
    var digits := "";
    while begin < |str| && IsDigit(str[begin])
      invariant start <= begin <= |str| && digits == str[start..begin]
      invariant DigitsEnd(str, start) == DigitsEnd(str, begin)
    {
      digits := digits + [str[begin]];
      begin := begin + 1;
    }
    if begin >= |str| || str[begin] != ':' {
      return false, begin, "";
    }
    begin := begin + 1;
    var len := Atol(digits);
    if len <= 0 || begin + len >= |str| {
      return false, begin, "";
    }
    value := str[begin..begin + len];
    begin, ok := begin + len, true;
  }

  /** A list element or the value of a dictionary entry. */
  method ReadItem(str: string, start: nat) returns (ret: int, begin: nat, value: Value)
    requires 0 < start < |str|
    ensures start <= begin <= |str|
    ensures match ParseItem(str, start)
            case Got(v, q) => ret == 0 && value == v && begin == q
            case Failed(e) => ret == e != 0
    decreases |str| - start, 1
  {
    if str[start] == 'i' {
      var ok, next, n := ReadInt(str, start);
      return if ok then 0 else start, next, Int(n);
    } else if str[start] == 'l' || str[start] == 'd' {
      ret, begin, value := Decode(str, start);
    } else {
      var ok, next, t := ReadStr(str, start);
      return if ok then 0 else start, next, Str(t);
    }
  }

  /** `decode`: 0 and the value, with `begin` behind it, or the position of an error, or -1 for an error at the very
      start. `begin` never passes the end. */
  method Decode(str: string, start: nat) returns (ret: int, begin: nat, root: Value)
    requires start <= |str|
    ensures start <= begin <= |str|
    ensures match Parse(str, start)
            case Got(v, q) => ret == 0 && root == v && begin == q
            case Failed(e) => ret == e != 0
    decreases |str| - start, 0
  {
    hide ParseItem, ParseStr, ParseInt, Assign, Lookup, Encoded;
    begin := start;
    if begin < |str| && str[begin] == 'l' {
      root := List([]);
    } else if begin < |str| && str[begin] == 'd' {
      root := Dict([]);
    } else {
      return if begin != 0 then begin else -1, begin, Int(0);
    }

    begin := begin + 1;
    while begin < |str|
      invariant start < begin <= |str| && (root.List? || root.Dict?)
      invariant root.List? ==> Parse(str, start) == ParseList(str, begin, root.items)
      invariant root.Dict? ==> Parse(str, start) == ParseDict(str, begin, root.entries)
    {
      if str[begin] == 'e' {
        begin, ret := begin + 1, 0;
        return;
      } else if root.List? {
        var code, next, v := ReadItem(str, begin);
        if code != 0 {
          return code, next, root;
        }
        begin, root := next, List(root.items + [v]);
      } else if str[begin] == 'i' || str[begin] == 'l' || str[begin] == 'd' {
        return begin, begin, root;
      } else {
        var ok, next, name := ReadStr(str, begin);
        if !ok {
          return begin, next, root;
        }
        var code, end, v := ReadItem(str, next);
        if code != 0 {
          return code, end, root;
        }
        begin, root := end, Dict(Assign(root.entries, name, v));
      }
    }
    return begin, begin, root;
  }

  /** `encode`: appends to the stream. */
  method Encode(os: string, root: Value) returns (out: string)
    ensures out == os + Encoded(root)
    decreases root, 1
  {
    hide Decimal, SignedDecimal, EncodedItems, EncodedEntries;
    match root
    case Int(n) =>
      out := os + "i" + SignedDecimal(n) + "e";
      assert out == os + ("i" + SignedDecimal(n) + "e");
    case Str(t) =>
      out := os + Decimal(|t|) + ":" + t;
      assert out == os + (Decimal(|t|) + ":" + t);
    case List(items) =>
      out := PrintItems(os + "l", items);
      out := out + "e";
      assert out == os + ("l" + EncodedItems(items) + "e");
    case Dict(entries) =>
      out := PrintEntries(os + "d", entries);
      out := out + "e";
      assert out == os + ("d" + EncodedEntries(entries) + "e");
  }

  lemma ItemsStep(before: string, items: seq<Value>, i: nat)
    requires i < |items|
    ensures before + Encoded(items[i]) + EncodedItems(items[i + 1..]) == before + EncodedItems(items[i..])
  {
    hide Encoded;
    assert items[i..][1..] == items[i + 1..];
  }

  method PrintItems(os: string, items: seq<Value>) returns (out: string)
    ensures out == os + EncodedItems(items)
    decreases items, 0
  {
    hide Encoded, EncodedItems;
    out := os;
    var i := 0;
    assert items[0..] == items;
    while i < |items|
      invariant i <= |items| && out + EncodedItems(items[i..]) == os + EncodedItems(items)
    {
      ItemsStep(out, items, i);
      out := Encode(out, items[i]);
      i := i + 1;
    }
    assert items[i..] == [];
    NothingLeft();
  }

  lemma NothingLeft()
    ensures EncodedItems([]) == "" && EncodedEntries([]) == ""
  {
  }

  lemma EntriesStep(before: string, entries: seq<Entry>, i: nat)
    requires i < |entries|
    ensures before + EncodedStr(entries[i].key) + Encoded(entries[i].value) + EncodedEntries(entries[i + 1..])
         == before + EncodedEntries(entries[i..])
  {
    hide Encoded, EncodedStr;
    assert entries[i..][1..] == entries[i + 1..];
  }

  lemma StrStep(before: string, t: string)
    ensures before + Decimal(|t|) + ":" + t == before + EncodedStr(t)
  {
    Regroup(before, Decimal(|t|), ":", t);
  }

  lemma Regroup(a: string, b: string, c: string, d: string)
    ensures a + b + c + d == a + (b + c + d)
  {
  }

  method PrintEntries(os: string, entries: seq<Entry>) returns (out: string)
    ensures out == os + EncodedEntries(entries)
    decreases entries, 0
  {
    hide Encoded, EncodedStr, EncodedEntries, Decimal;
    out := os;
    var i := 0;
    assert entries[0..] == entries;
    while i < |entries|
      invariant i <= |entries| && out + EncodedEntries(entries[i..]) == os + EncodedEntries(entries)
    {
      EntriesStep(out, entries, i);
      var name := entries[i].key;
      StrStep(out, name);
      out := Encode(out + Decimal(|name|) + ":" + name, entries[i].value);
      i := i + 1;
    }
    assert entries[i..] == [];
    NothingLeft();
  }
}
