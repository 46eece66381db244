/** Strings written as lists: joining with a delimiter, and cutting at a delimiter. */
module Strings {

  /** The items written one after the other with `sep` between neighbours. */
  function Join(items: seq<string>, sep: string): (r: string)
    ensures |items| == 1 ==> r == items[0]
    ensures items == [] ==> r == []
  {
    if |items| == 0 then []
    else if |items| == 1 then items[0]
    else items[0] + sep + Join(items[1..], sep)
  }

  /** Writing one more item appends the delimiter and the item. */
  lemma {:induction false} JoinSnoc(items: seq<string>, x: string, sep: string)
    requires items != []
    ensures Join(items + [x], sep) == Join(items, sep) + sep + x
  {
    if |items| == 1 {
      assert items + [x] == [items[0], x];
      assert [items[0], x][1..] == [x];
    } else {
      assert (items + [x])[1..] == items[1..] + [x];
      JoinSnoc(items[1..], x, sep);
    }
  }

  /** `s` cut at every occurrence of `d`. */
  function Split(s: string, d: char): (r: seq<string>)
    ensures |r| >= 1
  {
    if |s| == 0 then [""]
    else if s[0] == d then [""] + Split(s[1..], d)
    else
      var rest := Split(s[1..], d);
      [[s[0]] + rest[0]] + rest[1..]
  }

  lemma {:induction false} SplitNoDelimiter(x: string, d: char)
    requires d !in x
    ensures Split(x, d) == [x]
  {
    if x != [] {
      SplitNoDelimiter(x[1..], d);
      assert [x[0]] + x[1..] == x;
    }
  }

  lemma {:induction false} SplitFirst(x: string, d: char, rest: string)
    requires d !in x
    ensures Split(x + [d] + rest, d) == [x] + Split(rest, d)
  {
    if x == [] {
      assert x + [d] + rest == [d] + rest;
      assert ([d] + rest)[1..] == rest;
    } else {
      assert (x + [d] + rest)[1..] == x[1..] + [d] + rest;
      SplitFirst(x[1..], d, rest);
      assert [x[0]] + x[1..] == x;
    }
  }

  /** A list joined with a one-character delimiter that no item holds splits back into its items. */
  lemma {:induction false} SplitJoin(items: seq<string>, d: char)
    requires items != []
    requires forall i :: 0 <= i < |items| ==> d !in items[i]
    ensures Split(Join(items, [d]), d) == items
  {
    if |items| == 1 {
      SplitNoDelimiter(items[0], d);
    } else {
      SplitJoin(items[1..], d);
      SplitFirst(items[0], d, Join(items[1..], [d]));
      assert [items[0]] + items[1..] == items;
    }
  }

  /** The items written one after the other (string.Concat). */
  function Concat(items: seq<string>): string
  {
    if items == [] then [] else items[0] + Concat(items[1..])
  }

  /** Concatenation distributes over putting two lists together. */
  lemma {:induction false} ConcatAppend(a: seq<string>, b: seq<string>)
    ensures Concat(a + b) == Concat(a) + Concat(b)
  {
    if a == [] {
      assert a + b == b;
    } else {
      assert (a + b)[1..] == a[1..] + b;
      ConcatAppend(a[1..], b);
    }
  }
}
