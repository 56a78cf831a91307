/** The text of the photo-search statement and pymysql's binding of its
    parameters. pymysql substitutes the escaped arguments into the statement
    with Python's `%` operator, so every `%s` marker consumes exactly one
    argument, in order, and a count mismatch is an error. */
module QueryText {
  import opened Wrappers

  /** A statement template: literal SQL text and `%s` markers. */
  datatype Token = Text(sql: string) | Marker

  /** A statement after binding: literal SQL text and bound integer values. */
  datatype Bound = Sql(sql: string) | Value(v: int)

  /** The two `TypeError`s of Python's `%` operator on a count mismatch. */
  datatype FormatError = NotEnoughArguments | NotAllArgumentsConverted

  /** Number of `%s` markers in a template. */
  function Markers(q: seq<Token>): nat
  {
    if |q| == 0 then 0 else (if q[0].Marker? then 1 else 0) + Markers(q[1..])
  }

  /** The bound values of a statement, in textual order. */
  function Values(b: seq<Bound>): seq<int>
  {
    if |b| == 0 then [] else (if b[0].Value? then [b[0].v] else []) + Values(b[1..])
  }

  /** `template % args`: each marker, left to right, takes the next argument. */
  function Bind(q: seq<Token>, args: seq<int>): (r: Result<seq<Bound>, FormatError>)
    ensures r.Success? <==> Markers(q) == |args|
    ensures r.Failure? ==> (r.error == NotEnoughArguments <==> Markers(q) > |args|)
    ensures r.Success? ==> |r.value| == |q|
    decreases |q|
  {
    if |q| == 0 then
      if |args| == 0 then Success([]) else Failure(NotAllArgumentsConverted)
    else if q[0].Text? then
      match Bind(q[1..], args)
      case Failure(e) => Failure(e)
      case Success(rest) => Success([Sql(q[0].sql)] + rest)
    else if |args| == 0 then
      Failure(NotEnoughArguments)
    else
      match Bind(q[1..], args[1..])
      case Failure(e) => Failure(e)
      case Success(rest) => Success([Value(args[0])] + rest)
  }

  /** The values of a bound statement, read left to right, are exactly the arguments. */
  lemma {:induction false} BindValues(q: seq<Token>, args: seq<int>)
    requires Bind(q, args).Success?
    ensures Values(Bind(q, args).value) == args
    decreases |q|
  {
    if |q| > 0 {
      var b := Bind(q, args).value;
      if q[0].Text? {
        BindValues(q[1..], args);
        assert b[1..] == Bind(q[1..], args).value;
      } else {
        BindValues(q[1..], args[1..]);
        assert b[1..] == Bind(q[1..], args[1..]).value;
        assert args == [args[0]] + args[1..];
      }
    }
  }

  /** Binding keeps the statement's shape: literal text stays in place, word for word,
      and every marker position holds a value. */
  lemma {:induction false} BindKeepsText(q: seq<Token>, args: seq<int>)
    requires Bind(q, args).Success?
    ensures forall i :: 0 <= i < |q| ==>
      var b := Bind(q, args).value[i];
      (q[i].Text? <==> b.Sql?) && (q[i].Text? ==> b.sql == q[i].sql)
    decreases |q|
  {
    if |q| > 0 {
      var rest := if q[0].Text? then args else args[1..];
      BindKeepsText(q[1..], rest);
      forall i | 1 <= i < |q| ensures Bind(q, args).value[i] == Bind(q[1..], rest).value[i - 1] {
      }
    }
  }

  /** `', '.join(['%s'] * n)`: n markers separated by commas. */
  function Placeholders(n: nat): (r: seq<Token>)
    ensures Markers(r) == n
    ensures n == 0 <==> |r| == 0
  {
    if n == 0 then []
    else if n == 1 then [Marker]
    else
      MarkersAppend(Placeholders(n - 1), [Text(", "), Marker]);
      Placeholders(n - 1) + [Text(", "), Marker]
  }

  /** The placeholder list with `xs` bound into it. */
  function BoundList(xs: seq<int>): seq<Bound>
  {
    if |xs| == 0 then []
    else if |xs| == 1 then [Value(xs[0])]
    else BoundList(xs[..|xs| - 1]) + [Sql(", "), Value(xs[|xs| - 1])]
  }

  const SelectHead: string :=
    "SELECT photo_uid FROM photos WHERE id IN (\n    SELECT DISTINCT pk.photo_id\n    FROM photos_keywords pk\n    WHERE pk.keyword_id IN ("
  const ExcludeHead: string :=
    ")\n    AND NOT EXISTS (\n        SELECT 1 FROM photos_keywords pk2\n        WHERE pk2.photo_id = pk.photo_id\n        AND pk2.keyword_id IN ("
  const HavingHead: string :=
    ")\n    )\n    GROUP BY pk.photo_id\n    HAVING COUNT(DISTINCT pk.keyword_id) = "
  const Tail: string := "\n    )"

  /** The uid query of `search_photos` for `ni` included and `ne` excluded ids. */
  function SearchTemplate(ni: nat, ne: nat): seq<Token>
  {
    [Text(SelectHead)] + Placeholders(ni) + [Text(ExcludeHead)] + Placeholders(ne)
      + [Text(HavingHead), Marker, Text(Tail)]
  }

  /** The argument tuple `(*include_keywords, *exclude_keywords, len(include_keywords))`. */
  function SearchArgs(inc: seq<int>, exc: seq<int>): seq<int>
  {
    inc + exc + [|inc|]
  }

  /** The statement the database receives: the include ids inside the first
      `IN` list, the exclude ids inside the second, the include count after `HAVING ... =`. */
  function BoundSearch(inc: seq<int>, exc: seq<int>): seq<Bound>
  {
    [Sql(SelectHead)] + BoundList(inc) + [Sql(ExcludeHead)] + BoundList(exc)
      + [Sql(HavingHead), Value(|inc|), Sql(Tail)]
  }

  lemma {:induction false} MarkersAppend(a: seq<Token>, b: seq<Token>)
    ensures Markers(a + b) == Markers(a) + Markers(b)
    decreases |a|
  {
    if |a| == 0 {
      assert a + b == b;
    } else {
      assert (a + b)[1..] == a[1..] + b;
      MarkersAppend(a[1..], b);
    }
  }

  lemma BindOneText(sql: string)
    ensures Markers([Text(sql)]) == 0
    ensures Bind([Text(sql)], []) == Success([Sql(sql)])
  {
    assert [Text(sql)][1..] == [];
    assert Bind([], []) == Success([]);
    assert [Sql(sql)] + [] == [Sql(sql)];
  }

  lemma BindOneMarker(x: int)
    ensures Markers([Marker]) == 1
    ensures Bind([Marker], [x]) == Success([Value(x)])
  {
    assert [Marker][1..] == [];
    assert [x][1..] == [];
    assert Bind([], []) == Success([]);
    assert [Value(x)] + [] == [Value(x)];
  }

  /** Binding distributes over concatenation when the first part takes exactly its own arguments. */
  lemma {:induction false} BindAppend(a: seq<Token>, b: seq<Token>, x: seq<int>, y: seq<int>)
    requires Markers(a) == |x|
    requires Markers(b) == |y|
    ensures Bind(a + b, x + y) == Success(Bind(a, x).value + Bind(b, y).value)
    decreases |a|
  {
    MarkersAppend(a, b);
    if |a| == 0 {
      assert a + b == b;
      assert x == [];
      assert x + y == y;
      assert Bind(a, x).value == [];
      assert Bind(a, x).value + Bind(b, y).value == Bind(b, y).value;
    } else if a[0].Text? {
      BindAppendText(a, b, x, y);
    } else {
      BindAppendMarker(a, b, x, y);
    }
  }

  lemma {:induction false} BindAppendText(a: seq<Token>, b: seq<Token>, x: seq<int>, y: seq<int>)
    requires |a| > 0 && a[0].Text?
    requires Markers(a) == |x|
    requires Markers(b) == |y|
    ensures Bind(a + b, x + y) == Success(Bind(a, x).value + Bind(b, y).value)
    decreases |a|, 0
  {
    assert (a + b)[1..] == a[1..] + b;
    BindAppend(a[1..], b, x, y);
    var head := Sql(a[0].sql);
    var ra := Bind(a[1..], x).value;
    var rb := Bind(b, y).value;
    assert [head] + (ra + rb) == ([head] + ra) + rb;
  }

  lemma {:induction false} BindAppendMarker(a: seq<Token>, b: seq<Token>, x: seq<int>, y: seq<int>)
    requires |a| > 0 && a[0].Marker?
    requires Markers(a) == |x|
    requires Markers(b) == |y|
    ensures Bind(a + b, x + y) == Success(Bind(a, x).value + Bind(b, y).value)
    decreases |a|, 0
  {
    assert |x| > 0 && Markers(a[1..]) == |x[1..]|;
    var ab, xy := a + b, x + y;
    assert ab[0] == a[0] && ab[1..] == a[1..] + b;
    assert xy[0] == x[0] && xy[1..] == x[1..] + y;
    BindAppend(a[1..], b, x[1..], y);
    var ra := Bind(a[1..], x[1..]).value;
    var rb := Bind(b, y).value;
    BindMarkerStep(a, x);
    BindMarkerStep(ab, xy);
    assert [Value(x[0])] + (ra + rb) == ([Value(x[0])] + ra) + rb;
  }

  /** One marker consumes one argument. */
  lemma BindMarkerStep(q: seq<Token>, args: seq<int>)
    requires |q| > 0 && q[0].Marker? && |args| > 0
    requires Bind(q[1..], args[1..]).Success?
    ensures Bind(q, args) == Success([Value(args[0])] + Bind(q[1..], args[1..]).value)
  {
  }

  /** Binding `xs` into `', '.join(['%s'] * len(xs))` puts each id in its own slot, in order. */
  lemma {:induction false} BindPlaceholders(xs: seq<int>)
    ensures Bind(Placeholders(|xs|), xs) == Success(BoundList(xs))
    decreases |xs|
  {
    if |xs| == 1 {
      BindOneMarker(xs[0]);
      assert xs == [xs[0]];
    } else if |xs| > 1 {
      var init := xs[..|xs| - 1];
      var x := xs[|xs| - 1];
      BindPlaceholders(init);
      assert xs == init + [x];
      BindOneText(", ");
      BindOneMarker(x);
      BindAppend([Text(", ")], [Marker], [], [x]);
      assert [Text(", ")] + [Marker] == [Text(", "), Marker];
      assert [] + [x] == [x];
      BindAppend(Placeholders(|init|), [Text(", "), Marker], init, [x]);
      assert Placeholders(|xs|) == Placeholders(|init|) + [Text(", "), Marker];
      assert BoundList(xs) == BoundList(init) + [Sql(", "), Value(x)];
      assert Bind([Text(", "), Marker], [x]).value == [Sql(", "), Value(x)];
    }
  }

  /** The placeholders and the argument tuple of `search_photos` line up:
      there are `|inc| + |exc| + 1` markers, binding never raises, and the
      include ids, exclude ids and include count land in their own slots. */
  lemma {:induction false} SearchBindingAgrees(inc: seq<int>, exc: seq<int>)
    ensures Markers(SearchTemplate(|inc|, |exc|)) == |SearchArgs(inc, exc)| == |inc| + |exc| + 1
    ensures Bind(SearchTemplate(|inc|, |exc|), SearchArgs(inc, exc)) == Success(BoundSearch(inc, exc))
  {
    var head: seq<Token> := [Text(SelectHead)];
    var mid: seq<Token> := [Text(ExcludeHead)];
    var last: seq<Token> := [Text(HavingHead), Marker, Text(Tail)];
    BindOneText(SelectHead);
    BindOneText(ExcludeHead);
    BindOneText(HavingHead);
    BindOneText(Tail);
    BindOneMarker(|inc|);
    BindAppend([Text(HavingHead)], [Marker], [], [|inc|]);
    assert [] + [|inc|] == [|inc|];
    BindAppend([Text(HavingHead)] + [Marker], [Text(Tail)], [|inc|], []);
    assert [|inc|] + [] == [|inc|];
    assert [Text(HavingHead)] + [Marker] + [Text(Tail)] == last;
    assert Bind(last, [|inc|]).value == [Sql(HavingHead), Value(|inc|), Sql(Tail)] by {
      assert Bind([Text(HavingHead)] + [Marker], [|inc|]).value == [Sql(HavingHead), Value(|inc|)];
    }
    BindPlaceholders(inc);
    BindPlaceholders(exc);
    var t1 := head + Placeholders(|inc|);
    var t2 := t1 + mid;
    var t3 := t2 + Placeholders(|exc|);
    assert SearchTemplate(|inc|, |exc|) == t3 + last;
    MarkersAppend(head, Placeholders(|inc|));
    MarkersAppend(t1, mid);
    MarkersAppend(t2, Placeholders(|exc|));
    MarkersAppend(t3, last);
    BindAppend(head, Placeholders(|inc|), [], inc);
    assert [] + inc == inc;
    BindAppend(t1, mid, inc, []);
    assert inc + [] == inc;
    BindAppend(t2, Placeholders(|exc|), inc, exc);
    BindAppend(t3, last, inc + exc, [|inc|]);
    assert Bind(t1, inc).value == [Sql(SelectHead)] + BoundList(inc);
    assert Bind(t2, inc).value == [Sql(SelectHead)] + BoundList(inc) + [Sql(ExcludeHead)];
    assert Bind(t3, inc + exc).value == [Sql(SelectHead)] + BoundList(inc) + [Sql(ExcludeHead)] + BoundList(exc);
    assert SearchArgs(inc, exc) == (inc + exc) + [|inc|];
  }
}
