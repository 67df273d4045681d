/**
 * Handlers and middleware. A handler takes its input (an event or a command)
 * and the world it acts on, and returns its error, if any, and the world
 * afterwards; a middleware turns a handler into another one.
 */
module Middleware {
  import opened Wrappers
  import opened Eh
  import Command

  type Handler<!I, !W> = (I, W) -> (Option<Error>, W)

  type Middleware<!I, !W> = Handler<I, W> -> Handler<I, W>

  /** The handler that wraps `h` in `ms`, the first listed outermost. */
  function Chain<I, W>(h: Handler<I, W>, ms: seq<Middleware<I, W>>): Handler<I, W>
    decreases |ms|
  {
    if ms == [] then h else ms[0](Chain(h, ms[1..]))
  }

  /**
   * UseEventHandlerMiddleware and UseCommandHandlerMiddleware: wraps `h` in
   * the middlewares from the last listed to the first, so that the first
   * listed runs first.
   */
  method UseMiddleware<I, W>(h: Handler<I, W>, ms: seq<Middleware<I, W>>) returns (r: Handler<I, W>)
    ensures r == Chain(h, ms)
  {
    r := h;
    var i := |ms|;
    while i > 0
      invariant 0 <= i <= |ms|
      invariant r == Chain(h, ms[i..])
    {
      i := i - 1;
      assert ms[i..][1..] == ms[i + 1..];
      r := ms[i](r);
    }
  }

  /**
   * EventHandlerFunc and CommandHandlerFunc: a plain function used as a
   * handler. Handling calls the function once, with the input and the world
   * exactly as given, and returns what it returns.
   */
  function HandlerFunc<I(!new), W(!new)>(f: (I, W) -> (Option<Error>, W)): (h: Handler<I, W>)
    ensures forall x, w :: h(x, w) == f(x, w)
  {
    (x: I, w: W) => f(x, w)
  }

  /** What the world records: a middleware that ran, or an input a handler received. */
  datatype Entry<I> = Ran(name: string) | Handled(input: I)

  type Log<I> = seq<Entry<I>>

  /** A middleware that records its name, then delegates the unchanged input inward. */
  function Recording<I>(name: string): Middleware<I, Log<I>>
  {
    (h: Handler<I, Log<I>>) => (x: I, log: Log<I>) => h(x, log + [Ran(name)])
  }

  function Recordings<I>(names: seq<string>): (ms: seq<Middleware<I, Log<I>>>)
    ensures |ms| == |names|
    decreases |names|
  {
    if names == [] then [] else [Recording(names[0])] + Recordings(names[1..])
  }

  function RanAll<I>(names: seq<string>): (log: Log<I>)
    decreases |names|
  {
    if names == [] then [] else [Ran(names[0])] + RanAll(names[1..])
  }

  /** A handler function that records the input it receives and succeeds. */
  function Recorder<I(!new)>(): Handler<I, Log<I>>
  {
    HandlerFunc((x: I, log: Log<I>) => (None, log + [Handled(x)]))
  }

  /**
   * In a chain of recording middlewares, each runs exactly once, in the order
   * listed, and the inner handler then receives the input unchanged.
   */
  lemma {:induction false} ChainRunsInListedOrder<I>(h: Handler<I, Log<I>>, names: seq<string>, x: I, log: Log<I>)
    ensures Chain(h, Recordings(names))(x, log) == h(x, log + RanAll(names))
    decreases |names|
  {
    if names == [] {
      assert log + RanAll(names) == log;
    } else {
      var ms := Recordings<I>(names);
      assert ms[1..] == Recordings(names[1..]);
      ChainRunsInListedOrder(h, names[1..], x, log + [Ran(names[0])]);
      assert log + [Ran(names[0])] + RanAll(names[1..]) == log + RanAll(names);
    }
  }

  /**
   * Any function used as a handler, behind any chain of recording
   * middlewares, is called exactly once, with the input unchanged, once every
   * middleware has run; the handler function of the event handler test, which
   * collects the events it receives, ends up with exactly the one event.
   */
  lemma HandlerFuncPassesEvent<I(!new)>(f: (I, Log<I>) -> (Option<Error>, Log<I>), names: seq<string>, x: I, log: Log<I>)
    ensures Chain(HandlerFunc(f), Recordings(names))(x, log) == f(x, log + RanAll(names))
    ensures HandlerFunc((y: I, events: seq<I>) => (None, events + [y]))(x, []) == (None, [x])
  {
    ChainRunsInListedOrder(HandlerFunc(f), names, x, log);
    assert [] + [x] == [x];
  }

  /**
   * UseEventHandlerMiddleware with three recording middlewares: the log holds
   * first, second, third, then the event the inner handler received.
   */
  lemma EventMiddlewareOrder(e: Event)
    ensures Chain(Recorder(), Recordings(["first", "second", "third"]))(e, []) ==
            (None, [Ran("first"), Ran("second"), Ran("third"), Handled(e)])
  {
    var names := ["first", "second", "third"];
    ChainRunsInListedOrder(Recorder(), names, e, []);
    assert names[1..] == ["second", "third"] && names[1..][1..] == ["third"] && names[1..][1..][1..] == [];
    var log := RanAll<Event>(names);
    assert log == [Ran("first"), Ran("second"), Ran("third")];
    assert [] + log + [Handled(e)] == [Ran("first"), Ran("second"), Ran("third"), Handled(e)];
  }

  /**
   * UseCommandHandlerMiddleware with three recording middlewares: each runs
   * once, in order, and the command reaches the inner handler unchanged.
   */
  lemma CommandMiddlewareOrder(c: Command.Command)
    ensures Chain(Recorder(), Recordings(["first", "second", "third"]))(c, []) ==
            (None, [Ran("first"), Ran("second"), Ran("third"), Handled(c)])
  {
    var names := ["first", "second", "third"];
    ChainRunsInListedOrder(Recorder(), names, c, []);
    assert names[1..] == ["second", "third"] && names[1..][1..] == ["third"] && names[1..][1..][1..] == [];
    var log := RanAll<Command.Command>(names);
    assert log == [Ran("first"), Ran("second"), Ran("third")];
    assert [] + log + [Handled(c)] == [Ran("first"), Ran("second"), Ran("third"), Handled(c)];
  }
}
