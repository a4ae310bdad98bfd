/** Shared vocabulary of the dashboard core: optional and failing values,
    the abstract outcome of a backend call, the observable effects a handler
    produces (toasts, the global busy indicator, requests, navigation), and the
    two pieces of Redux state that the core reads and writes. */
module Common {

  datatype Option<+T> = None | Some(value: T)

  datatype Result<+T, +E> = Ok(value: T) | Err(error: E)

  /** What an awaited backend call produced: a resolved response carrying the
      field the caller reads (`message`, `data.key`, `data.token`), or a
      rejection carrying `error.response.data.message`. A missing or empty
      field is the empty string. */
  datatype Reply<+T> = Resolved(value: T) | Rejected(message: string)

  datatype Severity = Success | Error

  /** The body of a `createWinner` request. */
  datatype Payload =
    | Single(mobile: string, date: string)
    | Batch(mobiles: seq<string>, date: string)

  /** A backend call, as the gateway receives it. */
  datatype Request =
    | Login(email: string, password: string)
    | VerifyOtp(otp: string, key: string)
    | CreateWinner(payload: Payload)

  /** One observable effect of a handler, in the order it happens. */
  datatype Event =
    | Toast(severity: Severity, text: string)
    | ShowLoader(title: string)
    | HideLoader
    | Call(request: Request)
    | Navigate(route: string)
    | Closed

  /** The JavaScript expression `a || b` on two strings. */
  function OrElse(a: string, b: string): (r: string)
    ensures r == a || r == b
    ensures a != "" ==> r == a
    ensures r != "" <==> a != "" || b != ""
  {
    if a != "" then a else b
  }

  /** Number of busy-indicator activations not yet released in a trace. */
  function LoaderBalance(events: seq<Event>): int
  {
    if events == [] then 0
    else
      var here := match events[0]
        case ShowLoader(_) => 1
        case HideLoader => -1
        case _ => 0;
      here + LoaderBalance(events[1..])
  }

  /** Number of requests issued in a trace. */
  function CallCount(events: seq<Event>): nat
  {
    if events == [] then 0
    else (if events[0].Call? then 1 else 0) + CallCount(events[1..])
  }

  lemma {:induction false} LoaderBalanceAppend(a: seq<Event>, b: seq<Event>)
    ensures LoaderBalance(a + b) == LoaderBalance(a) + LoaderBalance(b)
  {
    if a != [] {
      assert (a + b)[0] == a[0] && (a + b)[1..] == a[1..] + b;
      LoaderBalanceAppend(a[1..], b);
    } else {
      assert a + b == b;
    }
  }

  lemma {:induction false} CallCountAppend(a: seq<Event>, b: seq<Event>)
    ensures CallCount(a + b) == CallCount(a) + CallCount(b)
  {
    if a != [] {
      assert (a + b)[0] == a[0] && (a + b)[1..] == a[1..] + b;
      CallCountAppend(a[1..], b);
    } else {
      assert a + b == b;
    }
  }

  /** The sink of every effect: toast notifications, the global loader,
      backend requests, router navigation and the dialog's `onClose`. */
  class Ui {
    var events: seq<Event>

    constructor ()
      ensures events == []
    {
      events := [];
    }

    method Emit(e: Event)
      modifies this
      ensures events == old(events) + [e]
    {
      events := events + [e];
    }
  }

  /** The Redux state the core touches: the two refresh flags of the user
      slice and the access token of the auth slice (an empty token means no
      session). The slices' initial values are not part of this model. */
  class Store {
    var isRefreshed: bool
    var isHeaderRefresh: bool
    var accessToken: string
  }
}
