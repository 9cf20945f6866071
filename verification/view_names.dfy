/**
  How `BeetlTemplateEngine.render` reads a view name: a redirect, a whole
  template, one named fragment of a template, or a malformed name.
 */
module ViewNames {
  import opened JavaStrings

  const RedirectPrefix := "redirect:"
  const Hash := '#'
  /** The text of the `TemplateException` thrown for a malformed view name, before the name itself. */
  const MalformedViewMessage := "视图名称有误："

  datatype Resolution =
    | Redirect(target: string)
    | Full(templateName: string)
    | Fragment(templateName: string, blockName: string)
    | Malformed(message: string)

  predicate IsRedirect(view: string) {
    StartsWith(view, RedirectPrefix)
  }

  /**
    The decision taken by `render` before it touches the request: the
    redirect prefix is tested first, then the presence of `#`, then the
    number of pieces `split("#")` gives.
   */
  function Resolve(view: string, suffix: string): (r: Resolution)
    ensures r.Redirect? <==> IsRedirect(view)
    ensures r.Redirect? ==> view == RedirectPrefix + r.target
    ensures r.Full? <==> !IsRedirect(view) && Hash !in view
    ensures r.Full? ==> r.templateName == view + suffix
    ensures r.Malformed? ==> Hash in view && r.message == MalformedViewMessage + view
  {
    if IsRedirect(view) then Redirect(view[|RedirectPrefix|..])
    else if Hash !in view then Full(view + suffix)
    else
      var parts := Split(view, Hash);
      if |parts| == 2 then Fragment(parts[0] + suffix, parts[1])
      else Malformed(MalformedViewMessage + view)
  }

  /** `base#block` followed by `k` further `#` characters. */
  function FragmentView(base: string, block: string, k: nat): (view: string) {
    base + [Hash] + block + Repeat(Hash, k)
  }

  /** The parts of a fragment view that `render` accepts. */
  predicate WellFormedFragment(base: string, block: string) {
    Hash !in base && Hash !in block && block != ""
  }

  /** A fragment view is a redirect exactly when its template part is one. */
  lemma FragmentViewRedirect(base: string, block: string, k: nat)
    requires Hash !in base
    ensures IsRedirect(FragmentView(base, block, k)) <==> IsRedirect(base)
  {
    var view := FragmentView(base, block, k);
    if |base| < |RedirectPrefix| {
      assert view[|base|] == Hash;
      assert forall i :: 0 <= i < |RedirectPrefix| ==> RedirectPrefix[i] != Hash;
    } else {
      assert view[..|RedirectPrefix|] == base[..|RedirectPrefix|];
    }
  }

  /** Every well-formed fragment view asks for block `block` of template `base + suffix`. */
  lemma FragmentAccepted(base: string, block: string, k: nat, suffix: string)
    requires WellFormedFragment(base, block) && !IsRedirect(base)
    ensures Resolve(FragmentView(base, block, k), suffix) == Fragment(base + suffix, block)
  {
    FragmentViewRedirect(base, block, k);
    SplitIntoTwo(base, block, k, Hash);
    assert FragmentView(base, block, k)[|base|] == Hash;
  }

  /** Every view resolved to a fragment is a well-formed fragment view. */
  lemma FragmentShape(view: string, suffix: string) returns (base: string, k: nat)
    requires Resolve(view, suffix).Fragment?
    ensures WellFormedFragment(base, Resolve(view, suffix).blockName)
    ensures view == FragmentView(base, Resolve(view, suffix).blockName, k)
    ensures Resolve(view, suffix).templateName == base + suffix
  {
    var parts := Split(view, Hash);
    base := parts[0];
    k := TwoPiecesShape(view, Hash);
  }

  /**
    A view that is not a redirect and holds a `#` is rejected exactly when
    it is not a well-formed fragment view: `a#b#c`, `a#`, `#`, `##b` fail,
    `a#b`, `#b`, `a#b#` are accepted.
   */
  lemma MalformedExactly(view: string, suffix: string)
    requires !IsRedirect(view) && Hash in view
    ensures Resolve(view, suffix).Malformed? <==>
      !exists base, block, k :: WellFormedFragment(base, block) && view == FragmentView(base, block, k)
  {
    if exists base, block, k :: WellFormedFragment(base, block) && view == FragmentView(base, block, k) {
      var base, block, k :| WellFormedFragment(base, block) && view == FragmentView(base, block, k);
      FragmentViewRedirect(base, block, k);
      FragmentAccepted(base, block, k, suffix);
    }
    if !Resolve(view, suffix).Malformed? {
      var base, k := FragmentShape(view, suffix);
    }
  }

  /** The redirect test comes first: a `#` after the prefix is part of the target. */
  lemma RedirectExample(suffix: string)
    ensures Resolve("redirect:/a#b", suffix) == Redirect("/a#b")
  {
  }

  /** Fragment views worked out: a plain `a#b`, a leading `#`, a trailing `#`. */
  lemma FragmentExamples(suffix: string)
    ensures Resolve("a#b", suffix) == Fragment("a" + suffix, "b")
    ensures Resolve("#b", suffix) == Fragment(suffix, "b")
    ensures Resolve("a#b#", suffix) == Fragment("a" + suffix, "b")
  {
    FragmentAccepted("a", "b", 0, suffix);
    assert FragmentView("a", "b", 0) == "a#b";
    FragmentAccepted("", "b", 0, suffix);
    assert FragmentView("", "b", 0) == "#b";
    FragmentAccepted("a", "b", 1, suffix);
    assert FragmentView("a", "b", 1) == "a#b#";
  }

  /** More than one non-empty piece after the template part is malformed. */
  lemma MalformedThreePieces(suffix: string)
    ensures Resolve("a#b#c", suffix).Malformed?
  {
  }

  /** An empty fragment name is malformed: its empty piece is dropped. */
  lemma MalformedEmptyBlock(suffix: string)
    ensures Resolve("a#", suffix).Malformed?
    ensures Resolve("#", suffix).Malformed?
  {
  }
}
