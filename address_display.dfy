/**
 * The Address cell of the records table (pages/index.tsx): each row's value,
 * preceded by ", " for every row but the first, rendered one after another.
 */
module AddressDisplay {
  import opened Records

  const Separator := ", "

  /** The text each address row contributes to the cell, in row order. */
  function Pieces(address: seq<Address>): seq<string>
  {
    seq(|address|, i requires 0 <= i < |address| => (if i != 0 then Separator else "") + address[i].value)
  }

  /** Adjacent text rendered one after another. */
  function Concat(pieces: seq<string>): string
  {
    if pieces == [] then "" else pieces[0] + Concat(pieces[1..])
  }

  /** The text of the Address cell. */
  function Display(address: seq<Address>): string
  {
    Concat(Pieces(address))
  }

  function Values(address: seq<Address>): seq<string>
  {
    seq(|address|, i requires 0 <= i < |address| => address[i].value)
  }

  /** Reference definition: `values` with `sep` between neighbours. */
  function Join(values: seq<string>, sep: string): string
  {
    if values == [] then ""
    else if |values| == 1 then values[0]
    else values[0] + sep + Join(values[1..], sep)
  }

  function TotalLength(values: seq<string>): nat
  {
    if values == [] then 0 else |values[0]| + TotalLength(values[1..])
  }

  /** Every row after the first, each preceded by the separator. */
  function Prefixed(address: seq<Address>): seq<string>
  {
    seq(|address|, i requires 0 <= i < |address| => Separator + address[i].value)
  }

  lemma {:induction false} ConcatPrefixed(address: seq<Address>)
    ensures Concat(Prefixed(address)) == if address == [] then "" else Separator + Join(Values(address), Separator)
  {
    if address != [] {
      var rest := address[1..];
      assert Prefixed(address) == [Separator + address[0].value] + Prefixed(rest);
      assert Prefixed(address)[1..] == Prefixed(rest);
      ConcatPrefixed(rest);
      assert Values(address)[1..] == Values(rest);
    }
  }

  /** The cell is the row values joined with ", ": no separator before the first value. */
  lemma DisplayIsJoin(address: seq<Address>)
    ensures Display(address) == Join(Values(address), Separator)
  {
    if address != [] {
      var rest := address[1..];
      assert Pieces(address)[1..] == Prefixed(rest);
      ConcatPrefixed(rest);
      assert Values(address)[1..] == Values(rest);
    }
  }

  /** Joining n values adds exactly n - 1 separators to their lengths. */
  lemma {:induction false} JoinLength(values: seq<string>, sep: string)
    requires values != []
    ensures |Join(values, sep)| == TotalLength(values) + |sep| * (|values| - 1)
  {
    if |values| > 1 {
      JoinLength(values[1..], sep);
    }
  }

  /** Joining with one more value adds one separator and that value at the end. */
  lemma {:induction false} JoinSnoc(values: seq<string>, v: string, sep: string)
    requires values != []
    ensures Join(values + [v], sep) == Join(values, sep) + sep + v
  {
    if |values| > 1 {
      assert (values + [v])[1..] == values[1..] + [v];
      JoinSnoc(values[1..], v, sep);
    } else {
      assert (values + [v])[1..] == [v];
    }
  }

  /** The cell's length: the values' lengths plus two characters per separator. */
  lemma DisplayLength(address: seq<Address>)
    requires address != []
    ensures |Display(address)| == TotalLength(Values(address)) + 2 * (|address| - 1)
  {
    DisplayIsJoin(address);
    JoinLength(Values(address), Separator);
  }

  /** A cell with one row shows that row's value alone. */
  lemma DisplaySingle(x: Address)
    ensures Display([x]) == x.value
  {
    DisplayIsJoin([x]);
  }

  /** Appending a row appends ", " and its value to the cell. */
  lemma DisplayAppend(address: seq<Address>, x: Address)
    requires address != []
    ensures Display(address + [x]) == Display(address) + Separator + x.value
  {
    DisplayIsJoin(address + [x]);
    DisplayIsJoin(address);
    assert Values(address + [x]) == Values(address) + [x.value];
    JoinSnoc(Values(address), x.value, Separator);
  }
}
