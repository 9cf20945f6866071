/**
  `BeetlTemplateEngine`: the adapter between Blade's template-engine
  interface and a Beetl `GroupTemplate`. The group template, the template
  handles it returns, the response used for redirects and the writer are
  collaborators the adapter does not own; every call made on them is
  recorded, in order, in the ghost `trace`.
 */
module Beetl {
  import opened JavaStrings
  import opened ViewNames
  import opened WebObjects
  import opened VariableScope

  const DefaultSuffix := ".html"

  /** What a controller hands to the engine: a view name and the model. */
  datatype ModelAndView = ModelAndView(view: string, model: map<string, Value>)

  /** A call the adapter makes on a collaborator. */
  datatype Call =
    | SendRedirect(target: string)                    // WebContext.response().redirect(target)
    | GetTemplate(name: string)                       // groupTemplate.getTemplate(name)
    | GetAjaxTemplate(name: string, fragment: string) // groupTemplate.getAjaxTemplate(name, fragment)
    | FastBinding(scope: map<string, Value>)          // t.fastBinding(scope)
    | RenderTo                                        // t.renderTo(writer)
    | CloseQuietly(failed: bool)                      // IOKit.closeQuietly(writer); `failed`: close threw and it was swallowed

  /** What escapes `render`: a `TemplateException` of its own, or whatever `renderTo` threw. */
  datatype Failure = TemplateException(message: string) | EngineException

  datatype Outcome = Returned | Threw(failure: Failure)

  /**
    The calls one `render` makes. `renderFails` is whether Beetl's
    `renderTo` throws; `closeFails` whether closing the writer throws.
   */
  function RenderCalls(mv: ModelAndView, request: Request, suffix: string, renderFails: bool, closeFails: bool): (calls: seq<Call>) {
    var output := [FastBinding(Scope(mv.model, request)), RenderTo] + if renderFails then [] else [CloseQuietly(closeFails)];
    match Resolve(mv.view, suffix)
    case Redirect(target) => [SendRedirect(target)]
    case Malformed(_) => []
    case Full(name) => [GetTemplate(name)] + output
    case Fragment(name, block) => [GetAjaxTemplate(name, block)] + output
  }

  /** How one `render` ends; a failing close does not enter into it. */
  function RenderOutcome(view: string, suffix: string, renderFails: bool): (outcome: Outcome) {
    match Resolve(view, suffix)
    case Redirect(_) => Returned
    case Malformed(message) => Threw(TemplateException(message))
    case _ => if renderFails then Threw(EngineException) else Returned
  }

  /** Whether a call uses the writer. */
  predicate UsesWriter(call: Call) {
    call.RenderTo? || call.CloseQuietly?
  }

  /** The number of attempts to close the writer in `calls`. */
  function CloseCount(calls: seq<Call>): (n: nat)
    ensures n <= |calls|
    ensures n == 0 <==> forall i :: 0 <= i < |calls| ==> !calls[i].CloseQuietly?
  {
    if calls == [] then 0
    else (if calls[0].CloseQuietly? then 1 else 0) + CloseCount(calls[1..])
  }

  lemma {:induction false} CloseCountAppend(a: seq<Call>, b: seq<Call>)
    ensures CloseCount(a + b) == CloseCount(a) + CloseCount(b)
    decreases |a|
  {
    if a != [] {
      assert (a + b)[0] == a[0];
      assert (a + b)[1..] == a[1..] + b;
      CloseCountAppend(a[1..], b);
    } else {
      assert a + b == b;
    }
  }

  /**
    A redirect view redirects to what follows the prefix and does nothing
    else: no template is looked up, nothing is bound, the writer is neither
    written nor closed, and `render` returns normally.
   */
  lemma RedirectOnly(mv: ModelAndView, request: Request, suffix: string, renderFails: bool, closeFails: bool)
    requires IsRedirect(mv.view)
    ensures RenderCalls(mv, request, suffix, renderFails, closeFails) ==
      [SendRedirect(mv.view[|RedirectPrefix|..])]
    ensures RenderOutcome(mv.view, suffix, renderFails) == Returned
  {
  }

  /**
    A malformed view throws a `TemplateException` naming the view before
    any call is made: nothing is bound, written or closed.
   */
  lemma MalformedMakesNoCall(mv: ModelAndView, request: Request, suffix: string, renderFails: bool, closeFails: bool)
    requires Resolve(mv.view, suffix).Malformed?
    ensures RenderCalls(mv, request, suffix, renderFails, closeFails) == []
    ensures RenderOutcome(mv.view, suffix, renderFails) ==
      Threw(TemplateException(MalformedViewMessage + mv.view))
  {
  }

  /**
    A resolved template is looked up first, whole with `getTemplate` or,
    for a fragment, with `getAjaxTemplate` and the block name; then the scope is bound, then
    the template is rendered into the writer, and the writer is closed only
    when rendering returned; a failing close does not change the outcome.
   */
  lemma RenderOrder(mv: ModelAndView, request: Request, suffix: string, renderFails: bool, closeFails: bool)
    requires Resolve(mv.view, suffix).Full? || Resolve(mv.view, suffix).Fragment?
    ensures var calls := RenderCalls(mv, request, suffix, renderFails, closeFails);
      && |calls| == (if renderFails then 3 else 4)
      && calls[0] == (
           var r := Resolve(mv.view, suffix);
           if r.Full? then GetTemplate(r.templateName) else GetAjaxTemplate(r.templateName, r.blockName))
      && calls[1] == FastBinding(Scope(mv.model, request))
      && calls[2] == RenderTo
      && (!renderFails ==> calls[3] == CloseQuietly(closeFails))
    ensures RenderOutcome(mv.view, suffix, renderFails) ==
      if renderFails then Threw(EngineException) else Returned
  {
  }

  /**
    The writer is used only when the view names a template, and it is
    closed exactly once when rendering returned, never otherwise.
   */
  lemma CloseExactlyOnce(mv: ModelAndView, request: Request, suffix: string, renderFails: bool, closeFails: bool)
    ensures var calls := RenderCalls(mv, request, suffix, renderFails, closeFails);
      && ((exists i :: 0 <= i < |calls| && UsesWriter(calls[i])) <==>
          Resolve(mv.view, suffix).Full? || Resolve(mv.view, suffix).Fragment?)
      && CloseCount(calls) ==
         if RenderOutcome(mv.view, suffix, renderFails) == Returned && !IsRedirect(mv.view) then 1 else 0
  {
    var calls := RenderCalls(mv, request, suffix, renderFails, closeFails);
    var r := Resolve(mv.view, suffix);
    if r.Full? || r.Fragment? {
      var lookup := calls[0];
      var tail := if renderFails then [] else [CloseQuietly(closeFails)];
      assert calls == [lookup, FastBinding(Scope(mv.model, request)), RenderTo] + tail;
      assert UsesWriter(calls[2]);
      CloseCountAppend([lookup, FastBinding(Scope(mv.model, request)), RenderTo], tail);
    }
  }

  class BeetlTemplateEngine {
    var suffix: string
    ghost var trace: seq<Call>

    /** `new BeetlTemplateEngine(blade)`: the suffix starts as `.html`, nothing has been called. */
    constructor FromBlade()
      ensures suffix == DefaultSuffix && trace == []
    {
      suffix := DefaultSuffix;
      trace := [];
    }

    /** `new BeetlTemplateEngine(groupTemplate)`: the same defaults around a given group template. */
    constructor FromGroupTemplate()
      ensures suffix == DefaultSuffix && trace == []
    {
      suffix := DefaultSuffix;
      trace := [];
    }

    /** `setSuffix`: every later `render` appends the new suffix. */
    method SetSuffix(suffix: string)
      modifies this`suffix
      ensures this.suffix == suffix
    {
      this.suffix := suffix;
    }

    /**
      `render(modelAndView, writer)` for the current `request`; `renderFails`
      and `closeFails` say whether Beetl's `renderTo` and the writer's
      `close` throw.
     */
    method Render(mv: ModelAndView, request: Request, renderFails: bool, closeFails: bool) returns (outcome: Outcome)
      modifies this`trace
      ensures outcome == RenderOutcome(mv.view, suffix, renderFails)
      ensures trace == old(trace) + RenderCalls(mv, request, suffix, renderFails, closeFails)
    {
      var view := mv.view;
      if StartsWith(view, RedirectPrefix) {
        trace := trace + [SendRedirect(view[|RedirectPrefix|..])];
        return Returned;
      }
      if Hash !in view {
        trace := trace + [GetTemplate(view + suffix)];
      } else {
        var split := Split(view, Hash);
        if |split| == 2 {
          trace := trace + [GetAjaxTemplate(split[0] + suffix, split[1])];
        } else {
          return Threw(TemplateException(MalformedViewMessage + view));
        }
      }
      var attributes := BuildScope(mv.model, request);
      trace := trace + [FastBinding(attributes)];
      trace := trace + [RenderTo];
      if renderFails {
        return Threw(EngineException);
      }
      trace := trace + [CloseQuietly(closeFails)];
      outcome := Returned;
    }
  }

  /** A suffix set once applies to every later render, and a failing close is not seen by the caller. */
  method SuffixClient(request: Request) {
    var engine := new BeetlTemplateEngine.FromBlade();
    engine.SetSuffix(".btl");
    assert Resolve("index", ".btl") == Full("index.btl");
    var outcome := engine.Render(ModelAndView("index", map[]), request, false, true);
    assert engine.trace[0] == GetTemplate("index.btl");
    assert outcome == Returned;
  }
}
