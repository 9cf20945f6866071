# Beetl template engine adapter for Blade, modelled in Dafny

`BeetlTemplateEngine` plugs the Beetl template library into the Blade web
framework. Its `render(modelAndView, writer)` reads the view name and does
one of four things:

- it redirects when the name starts with `redirect:`;
- it renders a whole template `view + suffix`;
- it renders one named fragment (`template#block`);
- it throws a `TemplateException` for a malformed fragment name.

Before rendering it builds the template's variable scope from the model,
the request attributes, the session and the request itself. Then it binds
the scope, renders into the writer and closes the writer quietly. Its
constructor registers two "virtual attribute" switches, one for `Request`
objects and one for `Session` objects, so that templates can read fields
such as `request.uri`. The scope's `session` entry is the session's
attribute map, not the `Session` object, so the `Session` switch only
serves `Session` objects that reach a template some other way, for
instance through the model.

The project has six modules:

- `Optional` (`optional.dfy`): `Option`, standing for a Java reference that may be null.
- `JavaStrings` (`java_strings.dfy`): `startsWith`, `indexOf`, and `String.split` on a one-character separator with limit 0. That split cuts at every separator and then drops trailing empty pieces, except that a string without the separator comes back whole.
- `ViewNames` (`view_names.dfy`): the four outcomes of view-name resolution and the exact set of fragment views that are accepted.
- `WebObjects` (`web_objects.dfy`): the request, the session, template values and the two virtual-attribute switches.
- `VariableScope` (`variable_scope.dfy`): the scope merge, as a specification function and as the step-by-step `putAll`/`put` method.
- `Beetl` (`beetl_engine.dfy`): the engine class with its mutable `suffix`, and `Render`. `Render` records every call it makes on Beetl, the response and the writer in a ghost `trace`.

The Beetl engine, the response and the writer are not modelled; only the calls made on them are. What they do back is given to `Render` as two parameters:

- `renderFails`: whether `renderTo` throws;
- `closeFails`: whether closing the writer throws.

The current request is passed to `Render` explicitly. The source reads it from thread-local state.

Three points of the code's behaviour that are easy to miss:

- Only a malformed fragment name becomes a `TemplateException`. An exception thrown by Beetl's `renderTo` leaves `render` unwrapped (`EngineException` in the model).
- The writer is closed only when `renderTo` returns, because there is no `try`/`finally`. A failing `renderTo` leaves it open.
- "Exactly two parts" means two parts after trailing empty pieces are dropped. So `a#b#` and `a#b##` are accepted as fragment `b` of template `a`, and `#b` as fragment `b` of the template named by the suffix alone. `a#`, `#` and `a#b#c` are rejected.

## Model

| member | source | states |
|---|---|---|
| JavaStrings.StripTrailingEmpty | blade-template-beetl/src/main/java/com/blade/mvc/view/template/BeetlTemplateEngine.java:106 | the result is the prefix of the pieces that is empty or ends in a non-empty piece, and every piece cut off is empty (the limit-0 rule of `split`) |
| JavaStrings.Split | blade-template-beetl/src/main/java/com/blade/mvc/view/template/BeetlTemplateEngine.java:106 | no piece contains the separator; a string without the separator splits into itself alone |
| JavaStrings.SplitIntoTwo | blade-template-beetl/src/main/java/com/blade/mvc/view/template/BeetlTemplateEngine.java:106-107 | `a#b` followed by any number of `#`, with `a` and `b` free of `#` and `b` non-empty, splits into exactly `[a, b]` |
| JavaStrings.TwoPiecesShape | blade-template-beetl/src/main/java/com/blade/mvc/view/template/BeetlTemplateEngine.java:106-107 | conversely, a string that splits into two pieces is the first piece, `#`, the non-empty second piece and some number of trailing `#` |
| ViewNames.Resolve | blade-template-beetl/src/main/java/com/blade/mvc/view/template/BeetlTemplateEngine.java:99-111 | a redirect exactly for names starting `redirect:`, the target being the rest of the name; a whole template `view + suffix` exactly for other names without `#`; a malformed result only for names with `#`, with a message ending in the view name |
| ViewNames.FragmentAccepted | blade-template-beetl/src/main/java/com/blade/mvc/view/template/BeetlTemplateEngine.java:105-108 | every non-redirect name `base#block#...#` with `block` non-empty and no other `#` resolves to block `block` of template `base + suffix` |
| ViewNames.FragmentShape | blade-template-beetl/src/main/java/com/blade/mvc/view/template/BeetlTemplateEngine.java:105-108 | every name resolved to a fragment has that shape, with the template named by its first piece plus the suffix |
| ViewNames.MalformedExactly | blade-template-beetl/src/main/java/com/blade/mvc/view/template/BeetlTemplateEngine.java:105-111 | a non-redirect name containing `#` is rejected if and only if it is not of the accepted fragment shape |
| ViewNames.RedirectExample | blade-template-beetl/src/main/java/com/blade/mvc/view/template/BeetlTemplateEngine.java:99-101 | the redirect test comes before the `#` test: `redirect:/a#b` redirects to `/a#b` |
| ViewNames.FragmentExamples | blade-template-beetl/src/main/java/com/blade/mvc/view/template/BeetlTemplateEngine.java:105-108 | `a#b`, `#b` and `a#b#` resolve to fragment `b` |
| ViewNames.MalformedThreePieces | blade-template-beetl/src/main/java/com/blade/mvc/view/template/BeetlTemplateEngine.java:106-111 | `a#b#c` is rejected |
| ViewNames.MalformedEmptyBlock | blade-template-beetl/src/main/java/com/blade/mvc/view/template/BeetlTemplateEngine.java:106-111 | `a#` and `#` are rejected |
| WebObjects.RequestAttribute | blade-template-beetl/src/main/java/com/blade/mvc/view/template/BeetlTemplateEngine.java:48-68 | a value exactly for `uri`, `url`, `remoteAddress`, `protocol`, `method`, `keepAlive`, `queryString`, and it is the request accessor of that name; any other name gives null |
| WebObjects.SessionAttribute | blade-template-beetl/src/main/java/com/blade/mvc/view/template/BeetlTemplateEngine.java:69-83 | a value exactly for `id`, `ip`, `created`, `expired`, and it is the session accessor of that name, the two timestamps as dates; any other name gives null |
| WebObjects.VirtualAttribute | blade-template-beetl/src/main/java/com/blade/mvc/view/template/BeetlTemplateEngine.java:48-83 | the switch is chosen by the object's class; objects of other classes get nothing from these registrations |
| VariableScope.SessionEntryIsAttributeMap | blade-template-beetl/src/main/java/com/blade/mvc/view/template/BeetlTemplateEngine.java:117-120 | the scope's `session` entry is the attribute map, so neither virtual-attribute switch resolves any field on it |
| WebObjects.PingExample | blade-template-beetl/src/main/java/com/blade/mvc/view/template/BeetlTemplateEngine.java:50-52 | on a request for `/ping`, `uri` reads `/ping` and an unknown field reads null |
| VariableScope.ScopePrecedence | blade-template-beetl/src/main/java/com/blade/mvc/view/template/BeetlTemplateEngine.java:113-121 | the keys are those of the model and the attributes plus `request`, plus `session` when a session exists; `request` is the request; `session` is the session's attribute map; other attributes override the model; other model keys keep their values |
| VariableScope.BuildScope | blade-template-beetl/src/main/java/com/blade/mvc/view/template/BeetlTemplateEngine.java:114-121 | the map built by the two `putAll` and the two `put` calls is exactly that scope |
| VariableScope.MergeExample | blade-template-beetl/src/main/java/com/blade/mvc/view/template/BeetlTemplateEngine.java:114-121 | model `{x: 1}`, attributes `{x: 2, y: 3}` and session `{z: 4}` give `{x: 2, y: 3, session: {z: 4}, request: the request}` |
| VariableScope.NoSessionEntry | blade-template-beetl/src/main/java/com/blade/mvc/view/template/BeetlTemplateEngine.java:117-120 | without a session the scope gains no `session` entry |
| Beetl.RedirectOnly | blade-template-beetl/src/main/java/com/blade/mvc/view/template/BeetlTemplateEngine.java:99-101 | a redirect name makes the redirect call and no other: no lookup, no binding, no write, no close; `render` returns normally |
| Beetl.MalformedMakesNoCall | blade-template-beetl/src/main/java/com/blade/mvc/view/template/BeetlTemplateEngine.java:109-111 | a malformed name makes no call at all and throws a `TemplateException` whose message ends with the view name |
| Beetl.RenderOrder | blade-template-beetl/src/main/java/com/blade/mvc/view/template/BeetlTemplateEngine.java:103-124 | for a resolved template: `getTemplate` of the whole template, or `getAjaxTemplate` of the template with the block name for a fragment, then binding of the scope, `renderTo`, then one quiet close only if `renderTo` returned; the outcome does not depend on whether the close failed |
| Beetl.CloseExactlyOnce | blade-template-beetl/src/main/java/com/blade/mvc/view/template/BeetlTemplateEngine.java:99-124 | the writer is used if and only if the name resolves to a template, and it is closed exactly once when such a render returns, never otherwise |
| Beetl.BeetlTemplateEngine.FromBlade | blade-template-beetl/src/main/java/com/blade/mvc/view/template/BeetlTemplateEngine.java:30-35 | a new engine has suffix `.html` and has made no call |
| Beetl.BeetlTemplateEngine.FromGroupTemplate | blade-template-beetl/src/main/java/com/blade/mvc/view/template/BeetlTemplateEngine.java:91-93 | the same defaults around a given group template |
| Beetl.BeetlTemplateEngine.SetSuffix | blade-template-beetl/src/main/java/com/blade/mvc/view/template/BeetlTemplateEngine.java:30-31 | the suffix becomes the given one and nothing else changes |
| Beetl.BeetlTemplateEngine.Render | blade-template-beetl/src/main/java/com/blade/mvc/view/template/BeetlTemplateEngine.java:96-125 | the outcome and the calls appended to the trace are those the resolution of the view under the current suffix prescribes |

## Left out

- Construction plumbing is not modelled: the class-loader choice, the classpath resource loader, the UTF-8 encoding, reading the four delimiters from the environment, and wrapping an `IOException` as `TemplateException` (lines 36-47 and 86-88). The registrations themselves are modelled as the two switch functions.
- `Beetl.BeetlTemplateEngine.FromGroupTemplate`: the model does not record that this constructor registers no virtual attributes. Those of the given group template are unknown.
- Beetl's own behaviour is not modelled. This covers template lookup and caching, `fastBinding`, and how `renderTo` writes. A missing template or fragment shows up in Beetl when rendering. Every Beetl failure is folded into the `renderFails` parameter, observed at `renderTo`. So a failure that Beetl raises in `getTemplate`, `getAjaxTemplate` or `fastBinding` is modelled as one raised by `renderTo`: the trace then still holds the `FastBinding` and `RenderTo` calls, which the code does not make on that path.
- The bytes written to the writer and the internals of `IOKit.closeQuietly` are not modelled. Only the close attempt and whether it failed are recorded.
- The redirect is recorded as a call. Its effect on the response, and any failure it raises, are not modelled.
- Null references are not modelled: a null view name, model, request, attribute value or suffix. A null suffix would append the text `null`.
- `created` and `expired` are kept as raw epoch milliseconds. No `java.util.Date` is built.
- The `groupTemplate` getter (lines 32-33) is not modelled. It only returns the field.
- Logging and thread safety across concurrent requests are not modelled.
