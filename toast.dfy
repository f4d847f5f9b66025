/** Transient notifications: a list of toasts, appended to by `Show` and
    filtered by `Dismiss`. The toast id is a parameter, and the timer that
    dismisses a toast later is the caller's business (it calls `Dismiss`). */
module Toasts {
  import opened Types
  import opened Lists

  const DefaultTimeoutMs := 2200

  datatype Tone = Neutral | Success | Danger

  datatype Toast = Toast(id: string, message: string, tone: Tone, timeoutMs: int)

  datatype ToastOptions = ToastOptions(tone: Option<Tone>, timeoutMs: Option<int>)

  function ToastId(t: Toast): string {
    t.id
  }

  /** Showing a toast with a fresh id and then dismissing that id gives
      back the list as it was. */
  lemma DismissUndoesShow(toasts: seq<Toast>, t: Toast)
    requires forall x :: x in toasts ==> x.id != t.id
    ensures Without(toasts + [t], ToastId, t.id) == toasts
  {
    WithoutAppend(toasts, [t], ToastId, t.id);
    assert Without([t], ToastId, t.id) == [];
  }

  /** Dismissing another id after a show keeps the new toast, still last. */
  lemma DismissOtherKeepsShown(toasts: seq<Toast>, t: Toast, k: string)
    requires t.id != k
    ensures Without(toasts + [t], ToastId, k) == Without(toasts, ToastId, k) + [t]
  {
    WithoutAppend(toasts, [t], ToastId, k);
    assert Without([t], ToastId, k) == [t];
  }

  class ToastStore {
    var toasts: seq<Toast>

    constructor ()
      ensures toasts == []
    {
      toasts := [];
    }

    /** Appends one toast at the end; the tone defaults to neutral and the
        timeout to 2200 ms. */
    method Show(message: string, opts: ToastOptions, id: string)
      modifies this
      ensures |toasts| == |old(toasts)| + 1
      ensures toasts[..|old(toasts)|] == old(toasts)
      ensures toasts[|old(toasts)|] == Toast(id, message, opts.tone.GetOr(Neutral), opts.timeoutMs.GetOr(DefaultTimeoutMs))
    {
      var toast := Toast(id, message, opts.tone.GetOr(Neutral), opts.timeoutMs.GetOr(DefaultTimeoutMs));
      toasts := toasts + [toast];
    }

    /** Removes every toast with that id and keeps the others in order. */
    method Dismiss(toastId: string)
      modifies this
      ensures toasts == Without(old(toasts), ToastId, toastId)
      ensures forall t :: t in toasts <==> t in old(toasts) && t.id != toastId
      ensures (forall t :: t in old(toasts) ==> t.id != toastId) ==> toasts == old(toasts)
    {
      toasts := Without(toasts, ToastId, toastId);
    }
  }
}
