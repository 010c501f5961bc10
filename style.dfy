/**
 * How the navigation bar styles a row's description: the format it picks
 * from the `about` style table, and the substitution of the description
 * into that format.
 */
module Style {

  /** The key of the style table `_stylize_desc` reads. */
  function FormatKey(highlight: bool, editing: string): (r: string)
    ensures r == "highlight" <==> highlight && editing == "none"
    ensures r == "edit" <==> highlight && editing != "none"
    ensures r == "dim" <==> !highlight
  {
    if highlight then (if editing == "none" then "highlight" else "edit") else "dim"
  }

  const Placeholder: string := "{desc}"

  /** `template.format(desc=d)` for a template whose only field is `{desc}`: every occurrence is replaced by `d`. */
  function FillDesc(template: string, d: string): string
  {
    if template == [] then []
    else if Placeholder <= template then d + FillDesc(template[|Placeholder|..], d)
    else [template[0]] + FillDesc(template[1..], d)
  }

  /** Whether the template mentions the placeholder anywhere. */
  predicate Mentions(template: string)
  {
    exists i :: 0 <= i <= |template| && Placeholder <= template[i..]
  }

  /** A template without the placeholder is left as it is. */
  lemma {:induction false} FillWithoutPlaceholder(template: string, d: string)
    requires !Mentions(template)
    ensures FillDesc(template, d) == template
  {
    if template != [] {
      assert template[0..] == template;
      assert !(Placeholder <= template);
      assert !Mentions(template[1..]) by {
        forall i | 0 <= i <= |template[1..]|
          ensures !(Placeholder <= template[1..][i..])
        {
          assert template[1..][i..] == template[i + 1..];
        }
      }
      FillWithoutPlaceholder(template[1..], d);
    }
  }

  /** Text before and after a placeholder is kept, and the placeholder becomes the description. */
  lemma {:induction false} FillAround(before: string, after: string, d: string)
    requires '{' !in before && !Mentions(after)
    ensures FillDesc(before + Placeholder + after, d) == before + d + after
  {
    assert before + Placeholder + after == before + (Placeholder + after);
    FillPrefix(before, Placeholder + after, d);
    assert Placeholder <= Placeholder + after;
    assert (Placeholder + after)[|Placeholder|..] == after;
    FillWithoutPlaceholder(after, d);
    assert FillDesc(Placeholder + after, d) == d + after;
  }

  /** A prefix without an opening brace cannot start a placeholder, so it is copied through. */
  lemma {:induction false} FillPrefix(before: string, rest: string, d: string)
    requires '{' !in before
    ensures FillDesc(before + rest, d) == before + FillDesc(rest, d)
  {
    if before != [] {
      var t := before + rest;
      assert t[0] == before[0] && Placeholder[0] == '{';
      assert !(Placeholder <= t);
      assert t[1..] == before[1..] + rest;
      assert FillDesc(t, d) == [before[0]] + FillDesc(before[1..] + rest, d);
      assert '{' !in before[1..] by {
        forall c | c in before[1..] ensures c != '{' {
          assert c in before;
        }
      }
      FillPrefix(before[1..], rest, d);
      assert before == [before[0]] + before[1..];
    } else {
      assert before + rest == rest;
    }
  }

  /** The description `_stylize_desc` formats: the chosen template with the description filled in. */
  function StylizeDesc(about: map<string, string>, item: string, highlight: bool, editing: string): string
    requires FormatKey(highlight, editing) in about
  {
    FillDesc(about[FormatKey(highlight, editing)], item)
  }

  /**
   * A template of the form `before{desc}after` shows the row's description
   * between the two texts; a template that does not mention the placeholder
   * is shown as it is, whatever the row.
   */
  lemma {:induction false} StylizeShows(about: map<string, string>, item: string, highlight: bool, editing: string, before: string, after: string)
    requires FormatKey(highlight, editing) in about
    ensures about[FormatKey(highlight, editing)] == before + Placeholder + after && '{' !in before && !Mentions(after) ==>
      StylizeDesc(about, item, highlight, editing) == before + item + after
    ensures !Mentions(about[FormatKey(highlight, editing)]) ==>
      StylizeDesc(about, item, highlight, editing) == about[FormatKey(highlight, editing)]
  {
    var template := about[FormatKey(highlight, editing)];
    if template == before + Placeholder + after && '{' !in before && !Mentions(after) {
      FillAround(before, after, item);
    }
    if !Mentions(template) {
      FillWithoutPlaceholder(template, item);
    }
  }
}
