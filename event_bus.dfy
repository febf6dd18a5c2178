/**
 * The type-indexed observer list (src/event_bus/event_bus.h): per event type, a
 * list of callbacks in subscription order; emitting an event calls each of them.
 */
module Events {
  import opened Ecs
  import opened Wrappers

  /** The event types the engine defines (the std::type_index keys of the subscriber map). */
  datatype EventType = KeyPressedEventType | CollisionEventType

  datatype Event =
    | KeyPressedEvent(symbol: int)
    | CollisionEvent(a: Entity, b: Entity)
  {
    function Type(): (t: EventType)
      ensures t == KeyPressedEventType <==> KeyPressedEvent?
    {
      match this
      case KeyPressedEvent(_) => KeyPressedEventType
      case CollisionEvent(_, _) => CollisionEventType
    }
  }

  /**
   * An EventCallback: the owner object and its member function are opaque
   * identities; the event type is the parameter type of that member function.
   */
  datatype Callback = Callback(owner: nat, member: nat, eventType: EventType)

  type HandlerList = seq<Callback>

  /** One call handler->Execute(event). */
  datatype Invocation = Invocation(handler: Callback, event: Event)

  /** The calls emitting an event makes, one per handler, in list order. */
  function Dispatch(handlers: HandlerList, event: Event): (calls: seq<Invocation>)
    ensures |calls| == |handlers|
    ensures forall i :: 0 <= i < |calls| ==> calls[i].handler == handlers[i] && calls[i].event == event
  {
    seq(|handlers|, i requires 0 <= i < |handlers| => Invocation(handlers[i], event))
  }

  /** A handler subscribed k times is called k times: subscriptions are not merged. */
  lemma {:induction false} DispatchCountsDuplicates(handlers: HandlerList, extra: Callback, event: Event)
    ensures Dispatch(handlers + [extra], event) == Dispatch(handlers, event) + [Invocation(extra, event)]
    ensures multiset(Dispatch(handlers + [extra], event))[Invocation(extra, event)]
            == multiset(handlers)[extra] + 1
  {
    var d := Dispatch(handlers + [extra], event);
    assert d == Dispatch(handlers, event) + [Invocation(extra, event)];
    DispatchCounts(handlers, extra, event);
  }

  lemma {:induction false} DispatchCounts(handlers: HandlerList, h: Callback, event: Event)
    ensures multiset(Dispatch(handlers, event))[Invocation(h, event)] == multiset(handlers)[h]
  {
    if handlers != [] {
      var init := handlers[..|handlers| - 1];
      var last := handlers[|handlers| - 1];
      DispatchCounts(init, h, event);
      assert handlers == init + [last];
      assert Dispatch(handlers, event) == Dispatch(init, event) + [Invocation(last, event)];
    }
  }

  class EventBus {
    /** A missing key and a key holding a null list are both possible (operator[] inserts nulls). */
    var subscribers: map<EventType, Option<HandlerList>>

    /** Every list holds only callbacks for its own event type. */
    ghost predicate Valid()
      reads this
    {
      forall t :: t in subscribers && subscribers[t].Some? ==>
        forall i :: 0 <= i < |subscribers[t].value| ==> subscribers[t].value[i].eventType == t
    }

    /** The handlers currently subscribed to t, empty when there is no list. */
    ghost function Handlers(t: EventType): (h: HandlerList)
      reads this
    {
      if t in subscribers && subscribers[t].Some? then subscribers[t].value else []
    }

    constructor ()
      ensures Valid() && subscribers == map[]
    {
      subscribers := map[];
    }

    /** reset: no subscriptions remain. */
    method Reset()
      modifies this
      ensures Valid() && subscribers == map[]
      ensures forall t :: Handlers(t) == []
    {
      subscribers := map[];
    }

    /**
     * subscribe_to_event: create the list if the slot is absent or null, then
     * append the callback at its end. Other event types are untouched.
     */
    method SubscribeToEvent(handler: Callback)
      requires Valid()
      modifies this
      ensures Valid()
      ensures subscribers == old(subscribers)[handler.eventType := Some(old(Handlers(handler.eventType)) + [handler])]
      ensures Handlers(handler.eventType) == old(Handlers(handler.eventType)) + [handler]
      ensures forall t :: t != handler.eventType ==> Handlers(t) == old(Handlers(t))
    {
      var t := handler.eventType;
      if !(t in subscribers && subscribers[t].Some?) {
        subscribers := subscribers[t := Some([])];
      }
      subscribers := subscribers[t := Some(subscribers[t].value + [handler])];
    }

    /**
     * emit_event: look the list up with operator[] (which inserts a null entry for an
     * unseen type) and, if there is a list, call every handler in order with a
     * freshly built event.
     */
    method EmitEvent(event: Event) returns (calls: seq<Invocation>)
      requires Valid()
      modifies this
      ensures Valid()
      ensures subscribers == if event.Type() in old(subscribers) then old(subscribers)
                             else old(subscribers)[event.Type() := None]
      ensures calls == Dispatch(old(Handlers(event.Type())), event)
      ensures forall i :: 0 <= i < |calls| ==> calls[i].handler.eventType == event.Type()
      ensures forall t :: Handlers(t) == old(Handlers(t))
    {
      var t := event.Type();
      if t !in subscribers {
        subscribers := subscribers[t := None];
      }
      calls := [];
      var handlers := subscribers[t];
      if handlers.Some? {
        var list := handlers.value;
        var i := 0;
        while i < |list|
          invariant 0 <= i <= |list|
          invariant calls == Dispatch(list[..i], event)
        {
          calls := calls + [Invocation(list[i], event)];
          i := i + 1;
        }
        assert list[..i] == list;
      }
    }
  }

  /** The same callback subscribed twice is called twice, after every earlier subscriber. */
  method SubscribeTwiceThenEmit(bus: EventBus, handler: Callback, event: Event) returns (calls: seq<Invocation>)
    requires bus.Valid() && event.Type() == handler.eventType
    modifies bus
    ensures bus.Valid()
    ensures calls == Dispatch(old(bus.Handlers(event.Type())), event)
                     + [Invocation(handler, event), Invocation(handler, event)]
  {
    ghost var before := bus.Handlers(event.Type());
    bus.SubscribeToEvent(handler);
    bus.SubscribeToEvent(handler);
    assert bus.Handlers(event.Type()) == before + [handler] + [handler];
    calls := bus.EmitEvent(event);
    DispatchCountsDuplicates(before, handler, event);
    DispatchCountsDuplicates(before + [handler], handler, event);
  }

  /** After reset, emitting any event calls nothing. */
  method ResetThenEmit(bus: EventBus, event: Event) returns (calls: seq<Invocation>)
    modifies bus
    ensures bus.Valid() && calls == []
  {
    bus.Reset();
    calls := bus.EmitEvent(event);
  }
}
