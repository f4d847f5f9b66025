/** The confirmation dialog: one question at a time, with default labels
    and a pending answer. The promise's resolver is modelled as the number
    of the request awaiting an answer (`resolve`), and settling it as
    appending an `Answer` to `delivered`. */
module Confirmation {
  import opened Types

  const DefaultConfirmLabel := "Confirm"
  const DefaultCancelLabel := "Cancel"

  datatype Variant = Danger | Warning | Info

  datatype Options = Options(
    title: string,
    message: string,
    confirmLabel: Option<string>,
    cancelLabel: Option<string>,
    variant: Option<Variant>)

  /** The value a request's promise was settled with. */
  datatype Answer = Answer(request: nat, value: bool)

  class ConfirmationStore {
    var open: bool
    var title: string
    var message: string
    var confirmLabel: string
    var cancelLabel: string
    var variant: Variant
    var resolve: Option<nat>
    var delivered: seq<Answer>

    /** Closed, blank, default labels and variant, nothing pending. */
    ghost predicate IsInitial()
      reads this
    {
      && !open && title == "" && message == ""
      && confirmLabel == DefaultConfirmLabel && cancelLabel == DefaultCancelLabel
      && variant == Danger && resolve.None?
    }

    constructor ()
      ensures IsInitial() && delivered == []
    {
      open := false;
      title := "";
      message := "";
      confirmLabel := DefaultConfirmLabel;
      cancelLabel := DefaultCancelLabel;
      variant := Danger;
      resolve := None;
      delivered := [];
    }

    /** Opens the dialog for `request`. A request still pending is replaced
        and never receives an answer. */
    method Ask(options: Options, request: nat)
      modifies this
      ensures open && title == options.title && message == options.message
      ensures confirmLabel == options.confirmLabel.GetOr(DefaultConfirmLabel)
      ensures cancelLabel == options.cancelLabel.GetOr(DefaultCancelLabel)
      ensures variant == options.variant.GetOr(Danger)
      ensures resolve == Some(request)
      ensures delivered == old(delivered)
    {
      title := options.title;
      message := options.message;
      confirmLabel := options.confirmLabel.GetOr(DefaultConfirmLabel);
      cancelLabel := options.cancelLabel.GetOr(DefaultCancelLabel);
      variant := options.variant.GetOr(Danger);
      resolve := Some(request);
      open := true;
    }

    /** Answers the pending request, if any, with `true` and closes. */
    method Confirm()
      modifies this
      ensures delivered == old(delivered) + (if old(resolve).Some? then [Answer(old(resolve).value, true)] else [])
      ensures IsInitial()
    {
      if resolve.Some? {
        delivered := delivered + [Answer(resolve.value, true)];
      }
      Reset();
    }

    /** Answers the pending request, if any, with `false` and closes. */
    method Cancel()
      modifies this
      ensures delivered == old(delivered) + (if old(resolve).Some? then [Answer(old(resolve).value, false)] else [])
      ensures IsInitial()
    {
      if resolve.Some? {
        delivered := delivered + [Answer(resolve.value, false)];
      }
      Reset();
    }

    /** Back to the initial state; answers already given stay given. */
    method Reset()
      modifies this
      ensures IsInitial()
      ensures delivered == old(delivered)
    {
      open := false;
      title := "";
      message := "";
      confirmLabel := DefaultConfirmLabel;
      cancelLabel := DefaultCancelLabel;
      variant := Danger;
      resolve := None;
    }
  }

  /** Two questions asked back to back, then confirmed: only the second
      request gets an answer; the first one's promise never settles. */
  method SecondAskSupersedesFirst(first: Options, second: Options) returns (answers: seq<Answer>)
    ensures answers == [Answer(2, true)]
  {
    var store := new ConfirmationStore();
    store.Ask(first, 1);
    store.Ask(second, 2);
    store.Confirm();
    answers := store.delivered;
  }
}
