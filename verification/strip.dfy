/**
 * The text clean-up step of `to_numeric`: every `$` and every `%` is removed
 * from a cell before the cell is parsed as a number.  Each cell of a column is
 * cleaned independently.  Nothing else is removed; in particular the digit
 * grouping comma survives.
 */
module Strip {

  /** The characters the clean-up removes. */
  predicate IsSymbol(c: char) {
    c == '$' || c == '%'
  }

  /** One `str.replace(pattern, '')`: every occurrence of `c` is dropped. */
  function RemoveAll(s: string, c: char): (r: string)
    ensures c !in r
    ensures |r| <= |s|
    ensures forall x :: x in r ==> x in s
  {
    if |s| == 0 then []
    else if s[0] == c then RemoveAll(s[1..], c)
    else [s[0]] + RemoveAll(s[1..], c)
  }

  /** The clean-up of one cell: first every `$`, then every `%` is dropped. */
  function CleanCell(s: string): (r: string)
    ensures '$' !in r && '%' !in r
    ensures |r| <= |s|
    ensures forall x :: x in r ==> x in s
  {
    RemoveAll(RemoveAll(s, '$'), '%')
  }

  /** The clean-up applied to every cell of a column. */
  function CleanColumn(column: seq<string>): (r: seq<string>)
    ensures |r| == |column|
    ensures forall i :: 0 <= i < |r| ==> '$' !in r[i] && '%' !in r[i] && |r[i]| <= |column[i]|
    ensures forall i :: 0 <= i < |r| ==> r[i] == CleanCell(column[i])
  {
    seq(|column|, i requires 0 <= i < |column| => CleanCell(column[i]))
  }

  /** Removing one character distributes over concatenation. */
  lemma {:induction false} RemoveAllAppend(a: string, b: string, c: char)
    ensures RemoveAll(a + b, c) == RemoveAll(a, c) + RemoveAll(b, c)
  {
    if |a| == 0 {
      assert a + b == b;
    } else {
      assert (a + b)[1..] == a[1..] + b;
      RemoveAllAppend(a[1..], b, c);
    }
  }

  /** On one character the clean-up keeps it exactly when it is not `$` or `%`. */
  lemma CleanCellSingle(c: char)
    ensures CleanCell([c]) == if IsSymbol(c) then [] else [c]
  {
    assert [c][1..] == [];
  }

  /**
   * The clean-up is a filter: it distributes over concatenation, so together
   * with `CleanCellSingle` it keeps every other character in its original
   * order.
   */
  lemma CleanCellAppend(a: string, b: string)
    ensures CleanCell(a + b) == CleanCell(a) + CleanCell(b)
  {
    RemoveAllAppend(a, b, '$');
    RemoveAllAppend(RemoveAll(a, '$'), RemoveAll(b, '$'), '%');
  }

  /** Every character other than `$` and `%` occurs as often after the clean-up as before. */
  lemma {:induction false} CleanCellKeepsOthers(s: string, x: char)
    requires !IsSymbol(x)
    ensures multiset(CleanCell(s))[x] == multiset(s)[x]
  {
    if |s| > 0 {
      assert s == [s[0]] + s[1..];
      CleanCellAppend([s[0]], s[1..]);
      CleanCellSingle(s[0]);
      CleanCellKeepsOthers(s[1..], x);
    }
  }

  /** A cell without `$` and `%` is left as it is, and only such a cell is. */
  lemma {:induction false} CleanCellFixedIff(s: string)
    ensures CleanCell(s) == s <==> ('$' !in s && '%' !in s)
  {
    if |s| > 0 {
      assert s == [s[0]] + s[1..];
      CleanCellAppend([s[0]], s[1..]);
      CleanCellSingle(s[0]);
      CleanCellFixedIff(s[1..]);
      if IsSymbol(s[0]) {
        assert |CleanCell(s)| <= |s[1..]| < |s|;
      }
    }
  }

  /** Cleaning twice is the same as cleaning once. */
  lemma CleanCellIdempotent(s: string)
    ensures CleanCell(CleanCell(s)) == CleanCell(s)
  {
    CleanCellFixedIff(CleanCell(s));
  }

  /** Cleaning a column that is already clean leaves it as it is. */
  lemma CleanColumnIdempotent(column: seq<string>)
    ensures CleanColumn(CleanColumn(column)) == CleanColumn(column)
  {
    var once := CleanColumn(column);
    forall i | 0 <= i < |column|
      ensures CleanColumn(once)[i] == once[i]
    {
      CleanCellIdempotent(column[i]);
    }
  }

  /** The two replacements could be done in either order. */
  lemma {:induction false} CleanCellOrderIrrelevant(s: string)
    ensures RemoveAll(RemoveAll(s, '%'), '$') == CleanCell(s)
  {
    if |s| > 0 {
      assert s == [s[0]] + s[1..];
      RemoveAllAppend([s[0]], s[1..], '%');
      RemoveAllAppend(RemoveAll([s[0]], '%'), RemoveAll(s[1..], '%'), '$');
      CleanCellAppend([s[0]], s[1..]);
      assert [s[0]][1..] == [];
      CleanCellOrderIrrelevant(s[1..]);
    }
  }

  /**
   * The grouping comma is not removed, so a grouped amount still holds a
   * comma when it reaches the numeric parser.
   */
  lemma GroupedAmountKeepsComma()
    ensures CleanCell("$1,234.56") == "1,234.56"
    ensures ',' in CleanCell("$1,234.56")
  {
    CleanCellAppend("$", "1,234.56");
    CleanCellFixedIff("1,234.56");
    CleanCellSingle('$');
    assert "$1,234.56" == "$" + "1,234.56";
  }
}
