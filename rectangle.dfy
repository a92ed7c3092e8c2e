/** The `Rectangle` record of the quadtree: an anchor (x, y) and two extents.
    It is both the payload stored in leaves and the region a node covers. */
module Geometry {

  import opened Wrappers

  /** The value held by a `Rectangle` object at one moment. */
  datatype Rect = Rect(x: real, y: real, length: real, width: real)

  /** `Rectangle.ToString`: "<Length>x<Width> at (<X>, <Y>)".
      How a number is written is culture dependent and is left to `show`. */
  function Text(r: Rect, show: real -> string): (t: string)
    ensures |t| == |show(r.length)| + |show(r.width)| + |show(r.x)| + |show(r.y)| + 9
    ensures t[..|show(r.length)|] == show(r.length) && t[|show(r.length)|] == 'x' && t[|t| - 1] == ')'
  {
    show(r.length) + "x" + show(r.width) + " at (" + show(r.x) + ", " + show(r.y) + ")"
  }

  /** The four rendered numbers of a rectangle, in the order of its fields. */
  datatype Fields = Fields(length: string, width: string, x: string, y: string)

  /** A rendered number that contains neither the letter 'x' nor a space.
      The invariant-culture and the usual culture renderings of a double do so. */
  predicate Plain(s: string)
  {
    forall i :: 0 <= i < |s| ==> s[i] != 'x' && s[i] != ' '
  }

  /** Cuts `s` at its first `c`: the text before it and the text after it. */
  function CutAt(s: string, c: char): (r: Option<(string, string)>)
    ensures r.Some? ==> c !in r.value.0 && s == r.value.0 + [c] + r.value.1
    ensures r.None? ==> c !in s
  {
    if |s| == 0 then None
    else if s[0] == c then Some(([], s[1..]))
    else match CutAt(s[1..], c)
      case None => None
      case Some(p) => Some(([s[0]] + p.0, p.1))
  }

  lemma {:induction false} CutAtFirst(a: string, c: char, b: string)
    requires c !in a
    ensures CutAt(a + [c] + b, c) == Some((a, b))
  {
    if |a| > 0 {
      assert (a + [c] + b)[1..] == a[1..] + [c] + b;
      CutAtFirst(a[1..], c, b);
      assert [a[0]] + a[1..] == a;
    }
  }

  /** Reads a `Text` rendering back into its four number renderings. */
  function Parse(t: string): Option<Fields>
  {
    match CutAt(t, 'x')
    case None => None
    case Some((l, rest)) =>
      match CutAt(rest, ' ')
      case None => None
      case Some((w, tail)) =>
        if |tail| < 4 || tail[..4] != "at (" then None
        else
          match CutAt(tail[4..], ' ')
          case None => None
          case Some((xc, last)) =>
            if |xc| == 0 || xc[|xc| - 1] != ',' || |last| == 0 || last[|last| - 1] != ')' then None
            else Some(Fields(l, w, xc[..|xc| - 1], last[..|last| - 1]))
  }

  /** `ToString` writes Length, Width, X and Y in exactly that order, with
      separators that cannot be confused with the numbers: reading the text
      back recovers each rendering in its own place. */
  lemma TextParse(r: Rect, show: real -> string)
    requires Plain(show(r.length)) && Plain(show(r.width)) && Plain(show(r.x)) && Plain(show(r.y))
    ensures Parse(Text(r, show)) == Some(Fields(show(r.length), show(r.width), show(r.x), show(r.y)))
  {
    var l, w, x, y := show(r.length), show(r.width), show(r.x), show(r.y);
    assert 'x' !in l && ' ' !in w && ' ' !in x;
    var last := y + ")";
    var xc := x + ",";
    var tail := "at (" + xc + " " + last;
    var rest := w + " " + tail;
    assert Text(r, show) == l + ['x'] + rest;
    CutAtFirst(l, 'x', rest);
    CutAtFirst(w, ' ', tail);
    assert tail[..4] == "at (" && tail[4..] == xc + [' '] + last;
    CutAtFirst(xc, ' ', last);
    assert xc[..|xc| - 1] == x && last[..|last| - 1] == y;
  }

  /** A `Rectangle` object: four independently settable properties. */
  class Rectangle {
    var x: real
    var y: real
    var length: real
    var width: real

    /** Stores its four arguments unchanged. */
    constructor (x: real, y: real, length: real, width: real)
      ensures this.x == x && this.y == y && this.length == length && this.width == width
    {
      this.x := x;
      this.y := y;
      this.length := length;
      this.width := width;
    }

    function Value(): Rect
      reads this
    {
      Rect(x, y, length, width)
    }

    /** `ToString` only reads the object. */
    function ToString(show: real -> string): (s: string)
      reads this
      ensures Plain(show(length)) && Plain(show(width)) && Plain(show(x)) && Plain(show(y)) ==>
        Parse(s) == Some(Fields(show(length), show(width), show(x), show(y)))
    {
      if Plain(show(length)) && Plain(show(width)) && Plain(show(x)) && Plain(show(y)) then
        TextParse(Value(), show);
        Text(Value(), show)
      else
        Text(Value(), show)
    }

    method SetX(v: real)
      modifies this
      ensures x == v && y == old(y) && length == old(length) && width == old(width)
    {
      x := v;
    }

    method SetY(v: real)
      modifies this
      ensures y == v && x == old(x) && length == old(length) && width == old(width)
    {
      y := v;
    }

    method SetLength(v: real)
      modifies this
      ensures length == v && x == old(x) && y == old(y) && width == old(width)
    {
      length := v;
    }

    method SetWidth(v: real)
      modifies this
      ensures width == v && x == old(x) && y == old(y) && length == old(length)
    {
      width := v;
    }
  }
}
