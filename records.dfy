/** A contact: an immutable name and an ordered list of phone objects. */
module Records {
  import opened Errors
  import opened Fields

  // ---------------------------------------------------------------------------
  // Specification functions on the list of phone values
  // ---------------------------------------------------------------------------

  /** The values of a list of phone objects, in order. */
  function ValuesOf(ps: seq<Phone>): (vs: seq<string>)
    reads ps
    ensures |vs| == |ps|
    ensures forall i :: 0 <= i < |ps| ==> vs[i] == ps[i].value
  {
    if ps == [] then [] else [ps[0].value] + ValuesOf(ps[1..])
  }

  /** No phone object occurs twice in the list. */
  predicate Distinct(ps: seq<Phone>)
  {
    forall i, j :: 0 <= i < j < |ps| ==> ps[i] != ps[j]
  }

  /** The smallest index whose value is exactly `n`. */
  function FirstIndex(vs: seq<string>, n: string): (i: nat)
    requires n in vs
    ensures i < |vs| && vs[i] == n
    ensures forall k :: 0 <= k < i ==> vs[k] != n
  {
    if vs[0] == n then 0 else FirstIndex(vs[1..], n) + 1
  }

  /** The values different from `n`, in their original order. */
  function Without(vs: seq<string>, n: string): seq<string>
  {
    if vs == [] then [] else (if vs[0] == n then [] else [vs[0]]) + Without(vs[1..], n)
  }

  /** Without keeps every value other than `n` as often as it occurs, and
      drops every `n`. */
  lemma {:induction false} WithoutCounts(vs: seq<string>, n: string)
    ensures multiset(Without(vs, n)) == multiset(vs)[n := 0]
  {
    if vs != [] {
      WithoutCounts(vs[1..], n);
      assert vs == [vs[0]] + vs[1..];
    }
  }

  /** Without keeps the order: it filters each part of a concatenation on its own. */
  lemma {:induction false} WithoutAppend(a: seq<string>, b: seq<string>, n: string)
    ensures Without(a + b, n) == Without(a, n) + Without(b, n)
  {
    if a != [] {
      assert (a + b)[1..] == a[1..] + b;
      WithoutAppend(a[1..], b, n);
    } else {
      assert a + b == b;
    }
  }

  /** Removing a value that is not there changes nothing. */
  lemma {:induction false} WithoutAbsent(vs: seq<string>, n: string)
    requires n !in vs
    ensures Without(vs, n) == vs
  {
    if vs != [] {
      WithoutAbsent(vs[1..], n);
    }
  }

  /** Removing twice is removing once. */
  lemma WithoutIdempotent(vs: seq<string>, n: string)
    ensures Without(Without(vs, n), n) == Without(vs, n)
  {
    var r := Without(vs, n);
    WithoutCounts(vs, n);
    assert multiset(r)[n] == 0;
    WithoutAbsent(r, n);
  }

  /** The phone objects whose value is not `n`, in their original order: the
      filter of `remove_phone`. */
  function KeptPhones(ps: seq<Phone>, n: string): (r: seq<Phone>)
    reads ps
    ensures forall p :: p in r ==> p in ps
  {
    if ps == [] then []
    else (if ps[0].value != n then [ps[0]] else []) + KeptPhones(ps[1..], n)
  }

  /** Filtering the objects filters their values. */
  lemma {:induction false} KeptPhonesValues(ps: seq<Phone>, n: string)
    ensures ValuesOf(KeptPhones(ps, n)) == Without(ValuesOf(ps), n)
  {
    if ps != [] {
      KeptPhonesValues(ps[1..], n);
      var vs := ValuesOf(ps);
      assert vs == [ps[0].value] + ValuesOf(ps[1..]);
      assert vs[1..] == ValuesOf(ps[1..]);
      var head: seq<Phone> := if ps[0].value != n then [ps[0]] else [];
      var rest := KeptPhones(ps[1..], n);
      ValuesOfAppend(head, rest);
    }
  }

  lemma ValuesOfAppend(a: seq<Phone>, b: seq<Phone>)
    ensures ValuesOf(a + b) == ValuesOf(a) + ValuesOf(b)
  {
  }

  /** Filtering a list without repeated objects yields one without repeats. */
  lemma {:induction false} KeptPhonesDistinct(ps: seq<Phone>, n: string)
    requires Distinct(ps)
    ensures Distinct(KeptPhones(ps, n))
  {
    if ps != [] {
      KeptPhonesDistinct(ps[1..], n);
      var rest := KeptPhones(ps[1..], n);
      assert ps[0] !in ps[1..];
      assert ps[0] !in rest;
    }
  }

  // ---------------------------------------------------------------------------
  // Rendering
  // ---------------------------------------------------------------------------

  const Separator: string := "; "

  /** `"; ".join(vs)`. */
  function Join(vs: seq<string>): string
  {
    if vs == [] then ""
    else if |vs| == 1 then vs[0]
    else vs[0] + Separator + Join(vs[1..])
  }

  /** The inverse of Join: cuts the text at every "; ". */
  function Split(s: string): (r: seq<string>)
    ensures |r| >= 1
  {
    if s == [] then [""]
    else if |s| >= 2 && s[0] == ';' && s[1] == ' ' then [""] + Split(s[2..])
    else
      var t := Split(s[1..]);
      [[s[0]] + t[0]] + t[1..]
  }

  /** A piece without ';' is not cut. */
  lemma {:induction false} SplitPlain(x: string)
    requires ';' !in x
    ensures Split(x) == [x]
  {
    if x != [] {
      SplitPlain(x[1..]);
      assert [x[0]] + x[1..] == x;
    }
  }

  /** A piece without ';' followed by the separator is cut off whole. */
  lemma {:induction false} SplitAfter(x: string, t: string)
    requires ';' !in x
    ensures Split(x + Separator + t) == [x] + Split(t)
  {
    var s := x + Separator + t;
    if x == [] {
      assert s[2..] == t;
    } else {
      assert s[1..] == x[1..] + Separator + t;
      SplitAfter(x[1..], t);
      assert [x[0]] + x[1..] == x;
    }
  }

  /** Split recovers a non-empty list whose values contain no ';'. */
  lemma {:induction false} SplitJoin(vs: seq<string>)
    requires |vs| >= 1
    requires forall k :: 0 <= k < |vs| ==> ';' !in vs[k]
    ensures Split(Join(vs)) == vs
  {
    if |vs| == 1 {
      SplitPlain(vs[0]);
    } else {
      SplitAfter(vs[0], Join(vs[1..]));
      SplitJoin(vs[1..]);
    }
  }

  /** The text of `Record.__str__`. */
  function Render(name: string, vs: seq<string>): string
  {
    "Contact name: " + name + ", phones: " + Join(vs)
  }

  /** The rendering of a record with valid phones starts with its name; with
      no phones nothing follows, otherwise the rest lists exactly its phone
      values, in order. */
  lemma RenderShowsPhones(name: string, vs: seq<string>)
    requires forall k :: 0 <= k < |vs| ==> ValidPhone(vs[k])
    ensures var head := "Contact name: " + name + ", phones: ";
      var text := Render(name, vs);
      |head| <= |text| && text[..|head|] == head
      && (vs == [] ==> text == head)
      && (vs != [] ==> Split(text[|head|..]) == vs)
  {
    var head := "Contact name: " + name + ", phones: ";
    assert Render(name, vs)[|head|..] == Join(vs);
    if vs != [] {
      forall k | 0 <= k < |vs| ensures ';' !in vs[k] {
        ValidPhoneHasNoSemicolon(vs[k]);
      }
      SplitJoin(vs);
    }
  }

  // ---------------------------------------------------------------------------
  // Record
  // ---------------------------------------------------------------------------

  class Record {
    const name: Name
    var phones: seq<Phone>

    /** Every stored phone passes the phone check, and no phone object is
        stored twice. */
    ghost predicate Valid()
      reads this, phones
    {
      (forall i :: 0 <= i < |phones| ==> ValidPhone(phones[i].value))
      && Distinct(phones)
    }

    function Values(): seq<string>
      reads this, phones
    {
      ValuesOf(phones)
    }

    constructor (name: Name)
      ensures Valid() && this.name == name && phones == []
    {
      this.name := name;
      phones := [];
    }

    /** `add_phone`: appends a new Phone, or raises ValueError and keeps the list. */
    method AddPhone(number: string) returns (res: Result<()>)
      requires Valid()
      modifies this
      ensures Valid()
      ensures res.Ok? <==> ValidPhone(number)
      ensures res.Err? ==> res.error == ValueError && phones == old(phones)
      ensures res.Ok? ==>
        |phones| == |old(phones)| + 1 && phones[..|old(phones)|] == old(phones)
        && fresh(phones[|old(phones)|])
      ensures Values() == if ValidPhone(number) then old(Values()) + [number] else old(Values())
    {
      var p := NewPhone(number);
      if p.Err? {
        return Err(p.error);
      }
      Append(p.value);
      return Ok(());
    }

    /** `list.append` of a phone object not yet in the list. */
    method Append(p: Phone)
      requires Valid() && ValidPhone(p.value) && p !in phones
      modifies this
      ensures Valid() && phones == old(phones) + [p] && Values() == old(Values()) + [p.value]
    {
      ValuesOfAppend(phones, [p]);
      phones := phones + [p];
    }

    /** `remove_phone`: keeps the phones whose value differs from `number`. */
    method RemovePhone(number: string)
      requires Valid()
      modifies this
      ensures Valid()
      ensures phones == KeptPhones(old(phones), number)
      ensures Values() == Without(old(Values()), number)
    {
      KeptPhonesValues(phones, number);
      KeptPhonesDistinct(phones, number);
      var kept := KeptPhones(phones, number);
      forall i | 0 <= i < |kept| ensures ValidPhone(kept[i].value) {
        assert kept[i] in phones;
      }
      phones := kept;
    }

    /** `edit_phone`: re-assigns the first phone whose value is `number`
        through the validating setter. Raises KeyError when there is no such
        phone, ValueError when `newValue` fails the check. */
    method EditPhone(number: string, newValue: string) returns (res: Result<bool>)
      requires Valid()
      modifies phones
      ensures Valid() && phones == old(phones)
      ensures number !in old(Values()) ==> res == Err(KeyError(number)) && Values() == old(Values())
      ensures number in old(Values()) && !ValidPhone(newValue) ==>
        res == Err(ValueError) && Values() == old(Values())
      ensures number in old(Values()) && ValidPhone(newValue) ==>
        res == Ok(true) && Values() == old(Values())[FirstIndex(old(Values()), number) := newValue]
    {
      var i := 0;
      while i < |phones|
        invariant 0 <= i <= |phones|
        invariant forall k :: 0 <= k < i ==> Values()[k] != number
      {
        if phones[i].value == number {
          assert FirstIndex(Values(), number) == i;
          res := SetPhoneAt(i, newValue);
          return;
        }
        i := i + 1;
      }
      return Err(KeyError(number));
    }

    /** The phone setter applied to the phone at index `i`. */
    method SetPhoneAt(i: nat, newValue: string) returns (res: Result<bool>)
      requires Valid() && i < |phones|
      modifies phones[i]
      ensures Valid()
      ensures ValidPhone(newValue) ==> res == Ok(true) && Values() == old(Values())[i := newValue]
      ensures !ValidPhone(newValue) ==> res == Err(ValueError) && Values() == old(Values())
    {
      var p := phones[i];
      ghost var before := Values();
      var set_ := p.SetValue(newValue);
      forall k | 0 <= k < |phones| && k != i
        ensures phones[k].value == old(phones[k].value)
      {
        assert phones[k] != p;
      }
      if set_.Err? {
        assert Values() == before;
        return Err(set_.error);
      }
      assert Values() == before[i := newValue];
      return Ok(true);
    }

    /** `find_phone`: the first phone object whose value is exactly `number`;
        raises KeyError when there is none. */
    method FindPhone(number: string) returns (res: Result<Phone>)
      ensures res.Ok? <==> number in Values()
      ensures res.Ok? ==> res.value == phones[FirstIndex(Values(), number)] && res.value.value == number
      ensures res.Err? ==> res.error == KeyError(number)
    {
      var i := 0;
      while i < |phones|
        invariant 0 <= i <= |phones|
        invariant forall k :: 0 <= k < i ==> phones[k].value != number
      {
        assert Values()[i] == phones[i].value;
        if phones[i].value == number {
          assert forall k :: 0 <= k < i ==> Values()[k] != number;
          assert FirstIndex(Values(), number) == i;
          return Ok(phones[i]);
        }
        i := i + 1;
      }
      return Err(KeyError(number));
    }

    /** `str(record)`. */
    function ToString(): string
      reads this, phones
    {
      Render(name, Values())
    }
  }

  /** `Record(name)`: raises ValueError for an empty name, otherwise a new
      record with that name and no phones. */
  method NewRecord(name: string) returns (res: Result<Record>)
    ensures res.Ok? <==> ValidName(name)
    ensures res.Err? ==> res.error == ValueError
    ensures res.Ok? ==>
      fresh(res.value) && res.value.Valid() && res.value.name == name && res.value.phones == []
  {
    var checked := ValidateName(name);
    if checked.Err? {
      return Err(checked.error);
    }
    var r := new Record(checked.value);
    return Ok(r);
  }
}
