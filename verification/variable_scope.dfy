/**
  The variables a template sees during one `render` call: the model,
  overridden by the request attributes, then `session` (when there is a
  session) and `request`, each written later winning.
 */
module VariableScope {
  import opened Optional
  import opened WebObjects

  const SessionKey := "session"
  const RequestKey := "request"

  /** The keys that `render` writes after the two `putAll` calls. */
  function ReservedKeys(request: Request): (keys: set<string>)
    ensures RequestKey in keys
    ensures SessionKey in keys <==> request.session.Some?
  {
    {RequestKey} + if request.session.Some? then {SessionKey} else {}
  }

  /** The scope as one value: the model, then the attributes, then the two entries put last. */
  function Scope(model: map<string, Value>, request: Request): (scope: map<string, Value>) {
    var merged := model + request.attributes;
    var withSession :=
      if request.session.Some? then merged[SessionKey := Attributes(request.session.value.attributes)]
      else merged;
    withSession[RequestKey := RequestObject(request)]
  }

  /**
    The precedence every key obeys: `request` always names the request,
    `session` names the session's attributes when a session exists,
    attributes override the model, and no other key is present.
   */
  lemma ScopePrecedence(model: map<string, Value>, request: Request)
    ensures Scope(model, request).Keys ==
      model.Keys + request.attributes.Keys + ReservedKeys(request)
    ensures Scope(model, request)[RequestKey] == RequestObject(request)
    ensures request.session.Some? ==>
      Scope(model, request)[SessionKey] == Attributes(request.session.value.attributes)
    ensures forall k :: k in request.attributes && k !in ReservedKeys(request) ==>
      Scope(model, request)[k] == request.attributes[k]
    ensures forall k :: k in model && k !in request.attributes && k !in ReservedKeys(request) ==>
      Scope(model, request)[k] == model[k]
  {
  }

  /**
    The scope built as `render` builds it: a fresh map, `putAll` of the
    model, `putAll` of the request attributes, then the two `put`s.
   */
  method BuildScope(model: map<string, Value>, request: Request) returns (attributes: map<string, Value>)
    ensures attributes == Scope(model, request)
  {
    attributes := map[];
    attributes := attributes + model;
    attributes := attributes + request.attributes;
    var session := request.session;
    if session.Some? {
      attributes := attributes[SessionKey := Attributes(session.value.attributes)];
    }
    attributes := attributes[RequestKey := RequestObject(request)];
  }

  /** Model `{x: 1}`, attributes `{x: 2, y: 3}` and a session holding `{z: 4}`. */
  lemma MergeExample(request: Request, sessionAttributes: map<string, Value>)
    requires request.attributes == map["x" := Opaque(2), "y" := Opaque(3)]
    requires request.session.Some? && request.session.value.attributes == sessionAttributes
    requires sessionAttributes == map["z" := Opaque(4)]
    ensures Scope(map["x" := Opaque(1)], request) == map[
      "x" := Opaque(2),
      "y" := Opaque(3),
      SessionKey := Attributes(sessionAttributes),
      RequestKey := RequestObject(request)]
  {
  }

  /** Without a session the scope has no `session` entry unless the model or attributes bring one. */
  lemma NoSessionEntry(model: map<string, Value>, request: Request)
    requires request.session.None?
    requires SessionKey !in model && SessionKey !in request.attributes
    ensures SessionKey !in Scope(model, request)
  {
  }

  /**
    The `session` entry holds the session's attribute map, not the session
    object, so no virtual attribute is read through it: `session.id` in a
    template finds nothing.
   */
  lemma SessionEntryIsAttributeMap(model: map<string, Value>, request: Request, name: string)
    requires request.session.Some?
    ensures Scope(model, request)[SessionKey] == Attributes(request.session.value.attributes)
    ensures VirtualAttribute(Scope(model, request)[SessionKey], name) == None
  {
  }
}
