/** Encoded length of compact JSON: no spaces, one comma between members, one colon after each key. */
module CanonicalJson {
  /**
   A value by what its encoding weighs. Words are ASCII text without characters to escape; Raw stands for
   any other scalar, by the bytes it takes.
   */
  datatype Json =
    | Null
    | Flag(b: bool)
    | Count(n: nat)
    | Word(text: string)
    | Raw(bytes: nat)
    | Arr(items: seq<Json>)
    | Obj(members: seq<Member>)

  datatype Member = Member(key: string, value: Json)

  function Digits(n: nat): (d: nat)
    ensures d >= 1
  {
    if n < 10 then 1 else 1 + Digits(n / 10)
  }

  function FlagSize(b: bool): nat { if b then 4 else 5 }

  function Commas(n: nat): nat { if n == 0 then 0 else n - 1 }

  function Size(j: Json): nat {
    match j
    case Null => 4
    case Flag(b) => FlagSize(b)
    case Count(n) => Digits(n)
    case Word(text) => |text| + 2
    case Raw(bytes) => bytes
    case Arr(items) => 2 + Total(items) + Commas(|items|)
    case Obj(members) => 2 + Sum(members) + Commas(|members|)
  }

  /** The bytes of the values of an array, without commas and brackets. */
  function Total(items: seq<Json>): nat {
    if items == [] then 0 else Total(items[..|items| - 1]) + Size(items[|items| - 1])
  }

  /** The bytes of the members of an object, without commas and braces. */
  function Sum(members: seq<Member>): nat {
    if members == [] then 0 else Sum(members[..|members| - 1]) + Weight(members[|members| - 1])
  }

  /** A key in quotes, the colon, the value. */
  function Weight(m: Member): nat { |m.key| + 3 + Size(m.value) }

  lemma {:induction false} SumConcat(a: seq<Member>, b: seq<Member>)
    ensures Sum(a + b) == Sum(a) + Sum(b)
  {
    if b == [] {
      assert a + b == a;
    } else {
      SumConcat(a, b[..|b| - 1]);
      assert (a + b)[..|a + b| - 1] == a + b[..|b| - 1];
    }
  }

  lemma {:induction false} TotalConcat(a: seq<Json>, b: seq<Json>)
    ensures Total(a + b) == Total(a) + Total(b)
  {
    if b == [] {
      assert a + b == a;
    } else {
      TotalConcat(a, b[..|b| - 1]);
      assert (a + b)[..|a + b| - 1] == a + b[..|b| - 1];
    }
  }

  lemma SumNone()
    ensures Sum([]) == 0
  {
  }

  lemma SumOne(a: Member)
    ensures Sum([a]) == Weight(a)
  {
    assert [a][..0] == [];
  }

  lemma SumThree(a: Member, b: Member, c: Member)
    ensures Sum([a, b, c]) == Weight(a) + Weight(b) + Weight(c)
  {
    assert [a, b, c][..2] == [a, b] && [a, b][..1] == [a] && [a][..0] == [];
    SumOne(a);
    assert Sum([a, b]) == Weight(a) + Weight(b);
  }

  lemma SumSix(a: Member, b: Member, c: Member, d: Member, e: Member, f: Member)
    ensures Sum([a, b, c, d, e, f]) == Weight(a) + Weight(b) + Weight(c) + Weight(d) + Weight(e) + Weight(f)
  {
    SumThree(a, b, c);
    SumThree(d, e, f);
    SumConcat([a, b, c], [d, e, f]);
    assert [a, b, c, d, e, f] == [a, b, c] + [d, e, f];
  }

  lemma {:induction false} DigitsGrow(m: nat, n: nat)
    requires m <= n
    ensures Digits(m) <= Digits(n)
  {
    if n >= 10 && m >= 10 { DigitsGrow(m / 10, n / 10); }
  }

  lemma DigitsOfSmall(n: nat)
    requires n < 1000
    ensures Digits(n) <= 3
  {
    assert Digits(n / 10) <= 2;
  }
}
