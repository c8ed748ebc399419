/** `Style`: reading computed CSS values, collapsing four side values into
    the shortest shorthand, and the inline-style bookkeeping of an instance.
    The computed style is a parameter (`view`): a map from dashed property
    name to its value, absent names reading as `''`. An element is its
    inline `cssText`, or `None` when there is no element. */
module Style {
  import opened Wrappers
  import opened Strings
  import Text
  import Patterns
  import T = TypeUtil

  /** What `compute` returns: the whole declaration when no property is
      given, otherwise one property's string value. `get` may also return
      `shortHand`'s undefined. */
  datatype Value = Whole | Str(s: string) | Undef

  function Compute(view: map<string, string>, property: string): (r: Value)
    ensures r.Whole? <==> property == ""
  {
    if property == "" then Whole
    else
      var key := Text.Dash(property);
      Str(if key in view then view[key] else "")
  }

  /** The four side values of a shorthand, top, right, bottom, left. */
  datatype Sides = Sides(top: string, right: string, bottom: string, left: string)

  /** `shortHand` on the four computed values: undefined when all are empty,
      otherwise one, two, three or four space-separated values. */
  function Collapse(s: Sides): (r: Option<string>)
    ensures r.None? <==> s.top == "" && s.right == "" && s.bottom == "" && s.left == ""
  {
    if s.top == "" && s.right == "" && s.bottom == "" && s.left == "" then None
    else if s.top == s.bottom then
      if s.right == s.left then
        if s.top == s.right then Some(s.top)
        else Some(s.top + " " + s.right)
      else Some(s.top + " " + s.right + " " + s.bottom + " " + s.left)
    else if s.right == s.left then Some(s.top + " " + s.right + " " + s.bottom)
    else Some(s.top + " " + s.right + " " + s.bottom + " " + s.left)
  }

  /** The reading of a one- to four-value shorthand in CSS: one value for all
      sides; two for top/bottom and right/left; three for top, right/left and
      bottom; four for top, right, bottom, left. */
  function Expand(vs: seq<string>): Option<Sides>
  {
    if |vs| == 1 then Some(Sides(vs[0], vs[0], vs[0], vs[0]))
    else if |vs| == 2 then Some(Sides(vs[0], vs[1], vs[0], vs[1]))
    else if |vs| == 3 then Some(Sides(vs[0], vs[1], vs[2], vs[1]))
    else if |vs| == 4 then Some(Sides(vs[0], vs[1], vs[2], vs[3]))
    else None
  }

  /** The values `Collapse` writes, as a list. */
  function Written(s: Sides): (vs: seq<string>)
  {
    if s.top == s.bottom then
      if s.right == s.left then
        if s.top == s.right then [s.top] else [s.top, s.right]
      else [s.top, s.right, s.bottom, s.left]
    else if s.right == s.left then [s.top, s.right, s.bottom]
    else [s.top, s.right, s.bottom, s.left]
  }

  lemma CollapseJoins(s: Sides)
    requires Collapse(s).Some?
    ensures Collapse(s).value == Join(Written(s), " ")
  {
    var vs := Written(s);
    if |vs| == 2 {
      assert Join(vs, " ") == vs[0] + " " + Join(vs[1..], " ");
    } else if |vs| == 3 {
      assert vs[1..][1..] == vs[2..];
      assert Join(vs[1..], " ") == vs[1] + " " + vs[2];
      assert Join(vs, " ") == vs[0] + " " + (vs[1] + " " + vs[2]);
    } else if |vs| == 4 {
      assert vs[1..][1..] == vs[2..];
      assert vs[2..][1..] == vs[3..];
      assert Join(vs[2..], " ") == vs[2] + " " + vs[3];
      assert Join(vs[1..], " ") == vs[1] + " " + (vs[2] + " " + vs[3]);
      assert Join(vs, " ") == vs[0] + " " + (vs[1] + " " + (vs[2] + " " + vs[3]));
    }
  }

  predicate NoSpace(s: Sides)
  {
    ' ' !in s.top && ' ' !in s.right && ' ' !in s.bottom && ' ' !in s.left
  }

  /** Reading the collapsed shorthand back gives the four sides, whenever no
      side value holds a space. */
  lemma CollapseExpand(s: Sides)
    requires NoSpace(s)
    requires Collapse(s).Some?
    ensures Expand(Split(Collapse(s).value, " ")) == Some(s)
  {
    CollapseJoins(s);
    var vs := Written(s);
    assert forall i :: 0 <= i < |vs| ==> ' ' !in vs[i];
    SplitJoinRoundTrip(vs, ' ');
  }

  /** `Collapse` writes the fewest values: no shorter list reads back as the
      same four sides. */
  lemma CollapseShortest(s: Sides, vs: seq<string>)
    requires Expand(vs) == Some(s)
    ensures |Written(s)| <= |vs|
  {
  }

  /** The value one longhand name reads in the view. */
  function Side(view: map<string, string>, longhand: string): string
  {
    var key := Text.Dash(longhand);
    if key in view then view[key] else ""
  }

  /** `shortHand(view, element, patterns)` for a four-name longhand list. */
  /** Undefined exactly when every longhand reads empty; otherwise, when no
      value holds a space, the shorthand reads back as the four values. */
  function ShortHand(view: map<string, string>, patterns: seq<string>): (r: Option<string>)
    requires |patterns| == 4
    ensures var s := Sides(Side(view, patterns[0]), Side(view, patterns[1]),
                           Side(view, patterns[2]), Side(view, patterns[3]));
            (r.None? <==> s.top == "" && s.right == "" && s.bottom == "" && s.left == "")
            && (r.Some? && NoSpace(s) ==> Expand(Split(r.value, " ")) == Some(s))
  {
    var top := Side(view, patterns[0]);
    var right := Side(view, patterns[1]);
    var bottom := Side(view, patterns[2]);
    var left := Side(view, patterns[3]);
    var s := Sides(top, right, bottom, left);
    if Collapse(s).Some? && NoSpace(s) then
      CollapseExpand(s);
      Collapse(s)
    else Collapse(s)
  }

  /** An instance: the element, the last saved text `css` and the text read
      at construction, `original`. */
  datatype Style = Style(element: Option<string>, css: string, original: string)

  /** `current()`: the element's inline text, or `''` without an element. */
  function Current(st: Style): (r: string)
    ensures st.element.None? ==> r == ""
    ensures st.element.Some? ==> r == st.element.value
  {
    match st.element
    case Some(c) => c
    case None => ""
  }

  function New(element: Option<string>): (st: Style)
    ensures st.element == element
    ensures st.css == st.original == Current(st)
    ensures element.None? ==> st.css == ""
  {
    var css := Current(Style(element, "", ""));
    Style(element, css, css)
  }

  /** `update(style)`: stores and returns the text. */
  function Update(st: Style, style: string): (r: (Style, string))
    ensures r.0.css == r.1 == style
    ensures r.0.original == st.original && r.0.element == st.element
  {
    (st.(css := style), style)
  }

  /** `save()`: `update(current())`. */
  function Save(st: Style): (r: (Style, string))
    ensures r.0.css == r.1 == Current(st)
    ensures r.0.original == st.original && r.0.element == st.element
  {
    Update(st, Current(st))
  }

  /** `restore()`: writes `original` back to the element and returns it;
      without an element the property write throws. */
  function Restore(st: Style): (r: Result<(Style, string)>)
    ensures r.Throw? <==> st.element.None?
    ensures r.Ok? ==> Current(r.value.0) == r.value.1 == st.original
    ensures r.Ok? ==> r.value.0.css == st.css && r.value.0.original == st.original
  {
    match st.element
    case None => Throw(TypeError)
    case Some(_) => Ok((st.(element := Some(st.original)), st.original))
  }

  /** The calls that change an instance. */
  datatype Op = DoUpdate(style: string) | DoSave | DoRestore | Edit(cssText: string)

  /** Runs the calls in order; a throwing `restore` leaves the instance as it
      was. `Edit` stands for any outside write to the element's inline text. */
  function Run(st: Style, ops: seq<Op>): Style
    decreases |ops|
  {
    if |ops| == 0 then st
    else
      var next := match ops[0]
        case DoUpdate(s) => Update(st, s).0
        case DoSave => Save(st).0
        case DoRestore => (match Restore(st) case Ok(v) => v.0 case Throw(_) => st)
        case Edit(c) => if st.element.Some? then st.(element := Some(c)) else st;
      Run(next, ops[1..])
  }

  /** Whatever is called, `original` stays the text read at construction. */
  lemma {:induction false} OriginalFixed(st: Style, ops: seq<Op>)
    ensures Run(st, ops).original == st.original
    decreases |ops|
  {
    if |ops| > 0 {
      var next := match ops[0]
        case DoUpdate(s) => Update(st, s).0
        case DoSave => Save(st).0
        case DoRestore => (match Restore(st) case Ok(v) => v.0 case Throw(_) => st)
        case Edit(c) => if st.element.Some? then st.(element := Some(c)) else st;
      OriginalFixed(next, ops[1..]);
    }
  }

  /** After any calls, `restore` then `save` stores the construction-time
      text again. */
  lemma RestoreThenSave(element: Option<string>, ops: seq<Op>)
    requires element.Some?
    ensures var st := Run(New(element), ops);
      Restore(st).Ok? && Save(Restore(st).value.0).0.css == New(element).original
  {
    OriginalFixed(New(element), ops);
    ElementKept(New(element), ops);
  }

  lemma {:induction false} ElementKept(st: Style, ops: seq<Op>)
    requires st.element.Some?
    ensures Run(st, ops).element.Some?
    decreases |ops|
  {
    if |ops| > 0 {
      var next := match ops[0]
        case DoUpdate(s) => Update(st, s).0
        case DoSave => Save(st).0
        case DoRestore => (match Restore(st) case Ok(v) => v.0 case Throw(_) => st)
        case Edit(c) => if st.element.Some? then st.(element := Some(c)) else st;
      ElementKept(next, ops[1..]);
    }
  }

  /** `get(property)`: the computed value, except that an empty value of a
      shorthand listed by `Patterns` is rebuilt from its four longhands.
      Without an element, reaching its document throws. */
  function Get(st: Style, view: map<string, string>, property: string): (r: Result<Value>)
    ensures r.Throw? <==> st.element.None?
  {
    if st.element.None? then Throw(TypeError)
    else
      var style := Compute(view, property);
      if style == Str("") && property != "" && Patterns.Match(property) then
        match Patterns.Get(property)
        case Own(ps) =>
          Ok(match ShortHand(view, ps) case Some(v) => Str(v) case None => Undef)
        case _ => Ok(style)
      else Ok(style)
  }

  /** The fallback is taken exactly when the computed value is empty and the
      name is a listed shorthand; otherwise `get` is `compute`. */
  lemma GetFallback(st: Style, view: map<string, string>, property: string)
    requires st.element.Some?
    ensures Compute(view, property) != Str("") || !Patterns.Match(property) ==>
      Get(st, view, property) == Ok(Compute(view, property))
    ensures Compute(view, property) == Str("") && Patterns.Match(property) ==>
      Patterns.Get(property).Own? &&
      Get(st, view, property) == Ok(match ShortHand(view, Patterns.Get(property).value) case Some(v) => Str(v) case None => Undef)
  {
    Patterns.MatchIffGet(property);
  }
}
