/** `Patterns`: the CSS shorthands whose four longhands `Style.get` may have
    to collapse, keyed by dashed name. */
module Patterns {
  import opened Strings
  import Text
  import T = TypeUtil

  /** `settings()`: five shorthands, each listing its longhands top, right,
      bottom, left. */
  const Settings: T.Obj<seq<string>> := T.Obj(
    ["padding", "margin", "border-color", "border-style", "border-width"],
    map[
      "padding" := ["paddingTop", "paddingRight", "paddingBottom", "paddingLeft"],
      "margin" := ["marginTop", "marginRight", "marginBottom", "marginLeft"],
      "border-color" := ["borderTopColor", "borderRightColor", "borderBottomColor", "borderLeftColor"],
      "border-style" := ["borderTopStyle", "borderRightStyle", "borderBottomStyle", "borderLeftStyle"],
      "border-width" := ["borderTopWidth", "borderRightWidth", "borderBottomWidth", "borderLeftWidth"]])

  /** The table is well formed (its key list and its map agree, without
      repeats), lists exactly five keys, and gives each four longhands. */
  lemma SettingsShape()
    ensures T.WellFormed(Settings)
    ensures |Settings.keys| == 5
    ensures forall k :: k in Settings.values ==> |Settings.values[k]| == 4
  {
  }

  /** `match(str)`: the dashed name is one of the own keys. */
  predicate Match(s: string)
    ensures Match(s) ==> Text.Dash(s) in Settings.values && |Settings.values[Text.Dash(s)]| == 4
  {
    SettingsShape();
    T.Has(Settings, Text.Dash(s))
  }

  /** `get(str)`: the table indexed by the dashed name. */
  function Get(s: string): (r: T.Prop<seq<string>>)
    ensures r.Own? ==> |r.value| == 4
  {
    SettingsShape();
    T.Index(Settings, Text.Dash(s))
  }

  /** `match` and `get` agree on every name except the inherited ones a
      dashed name can spell (such as `constructor`). */
  lemma MatchIffGet(s: string)
    ensures Match(s) <==> Get(s).Own?
    ensures !Match(s) && !Get(s).Undefined? ==> Text.Dash(s) in T.ProtoNames
  {
    SettingsShape();
    T.HasIffOwn(Settings, Text.Dash(s));
  }

  /** Camel-case names match: `borderColor` dashes to `border-color`. */
  lemma CamelNamesMatch()
    ensures Match("borderColor")
  {
    DashBorderColor();
    assert Settings.keys[2] == "border-color";
  }

  lemma DashBorderColor()
    ensures Text.Dash("borderColor") == "border-color"
  {
    Text.DashAppend("border", "Color");
    Joints();
    PlainWords();
    DashColor();
  }

  lemma Joints()
    ensures "border" + "Color" == "borderColor"
    ensures "border" + "-color" == "border-color"
  {
  }

  lemma DashColor()
    ensures Text.Dash("Color") == "-color"
  {
    PlainWords();
    assert Text.Dash("olor") == "olor";
    assert Text.Dash("Color") == Text.DashChar('C') + Text.Dash("olor");
    assert Text.DashChar('C') == "-c";
  }

  /** `constructor` is not matched but indexes to an inherited value. */
  lemma ConstructorDisagrees()
    ensures !Match("constructor") && Get("constructor").Inherited?
  {
    ConstructorPlain();
    ConstructorInherited();
  }

  lemma ConstructorPlain()
    ensures Text.Dash("constructor") == "constructor"
  {
    PlainWords();
  }

  /** The words above that hold no capital letter. */
  lemma PlainWords()
    ensures Text.NoUpper("border") && Text.NoUpper("olor") && Text.NoUpper("constructor")
  {
  }

  lemma ConstructorInherited()
    ensures !T.Has(Settings, "constructor") && T.Index(Settings, "constructor").Inherited?
  {
  }
}
