/** The observable effects of one run of a request handler, in the order the
    handler produces them, and the three views of a trace that the handlers'
    properties are stated in. */
module Effects {
  import opened ErrorValues

  /** One effect of a handler run. `D` is the upstream response body, which
      the handlers forward without inspecting it.
      - Next(err): the handler calls `next(err)`;
      - UpstreamGet(url): the handler issues `axios.get(url)`;
      - Json(data): the handler calls `res.json(data)`;
      - Rejects: a foreign call threw outside any `try`, so the handler's
        promise rejects and the handler stops. */
  datatype Effect<D> = Next(err: ErrorValue) | UpstreamGet(url: string) | Json(data: D) | Rejects

  /** The errors passed to `next`, in order. */
  function Errors<D>(t: seq<Effect<D>>): (es: seq<ErrorValue>)
    ensures |es| <= |t|
  {
    if |t| == 0 then []
    else if t[0].Next? then [t[0].err] + Errors(t[1..])
    else Errors(t[1..])
  }

  /** The bodies passed to `res.json`, in order. */
  function Bodies<D>(t: seq<Effect<D>>): (ds: seq<D>)
    ensures |ds| <= |t|
  {
    if |t| == 0 then []
    else if t[0].Json? then [t[0].data] + Bodies(t[1..])
    else Bodies(t[1..])
  }

  /** The URLs requested from the upstream provider, in order. */
  function Requests<D>(t: seq<Effect<D>>): (us: seq<string>)
    ensures |us| <= |t|
  {
    if |t| == 0 then []
    else if t[0].UpstreamGet? then [t[0].url] + Requests(t[1..])
    else Requests(t[1..])
  }

  /** Whether the handler's promise rejected. */
  predicate Rejected<D>(t: seq<Effect<D>>) {
    |t| > 0 && (t[0].Rejects? || Rejected(t[1..]))
  }

  /** One `next(e)` call per error, in order. */
  function Notify<D>(es: seq<ErrorValue>): (t: seq<Effect<D>>)
    ensures |t| == |es|
    ensures forall i :: 0 <= i < |t| ==> t[i] == Next(es[i])
  {
    if |es| == 0 then [] else [Next(es[0])] + Notify(es[1..])
  }

  /** Each view of a concatenated trace is the concatenation of the views. */
  lemma {:induction false} ViewsAppend<D>(a: seq<Effect<D>>, b: seq<Effect<D>>)
    ensures Errors(a + b) == Errors(a) + Errors(b)
    ensures Bodies(a + b) == Bodies(a) + Bodies(b)
    ensures Requests(a + b) == Requests(a) + Requests(b)
    ensures Rejected(a + b) <==> Rejected(a) || Rejected(b)
  {
    if |a| == 0 {
      assert a + b == b;
    } else {
      assert (a + b)[0] == a[0];
      assert (a + b)[1..] == a[1..] + b;
      ViewsAppend(a[1..], b);
    }
  }

  /** A run of `next` calls shows exactly those errors and nothing else. */
  lemma {:induction false} NotifyViews<D>(es: seq<ErrorValue>)
    ensures Errors(Notify<D>(es)) == es
    ensures Bodies(Notify<D>(es)) == []
    ensures Requests(Notify<D>(es)) == []
    ensures !Rejected(Notify<D>(es))
  {
    if |es| > 0 {
      var t := Notify<D>(es);
      assert t[1..] == Notify<D>(es[1..]);
      NotifyViews<D>(es[1..]);
    }
  }

  /** A trace that starts with a run of `next` calls: its views are those
      errors followed by the views of the rest. */
  lemma NotifyThen<D>(es: seq<ErrorValue>, tail: seq<Effect<D>>)
    ensures |Notify(es) + tail| == |es| + |tail|
    ensures (Notify(es) + tail)[..|es|] == Notify(es)
    ensures (Notify(es) + tail)[|es|..] == tail
    ensures forall i :: 0 <= i < |es| ==> (Notify(es) + tail)[i] == Next(es[i])
    ensures forall i :: |es| <= i < |es| + |tail| ==> (Notify(es) + tail)[i] == tail[i - |es|]
    ensures Errors(Notify(es) + tail) == es + Errors(tail)
    ensures Bodies(Notify(es) + tail) == Bodies(tail)
    ensures Requests(Notify(es) + tail) == Requests(tail)
    ensures Rejected(Notify(es) + tail) <==> Rejected(tail)
  {
    ViewsAppend(Notify(es), tail);
    NotifyViews<D>(es);
  }
}
