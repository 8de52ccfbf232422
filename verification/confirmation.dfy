/** The confirmation dialog (`app/components/ConfirmationDialog.tsx`): the
    state record of the `useConfirmation` hook, which `showConfirmation`
    fills in and the dialog's two buttons and `hideConfirmation` reset,
    and what the `ConfirmationDialog` component draws for a record. The
    caller's callbacks are modelled by whether they were given; a button
    press reports whether it ran the caller's callback and how the promise
    returned by `showConfirmation` resolves. */
module Confirmation {
  import opened Common

  datatype DialogKind = Warning | Danger | Info

  /** What a caller hands to `showConfirmation`. */
  datatype Options = Options(
    title: Option<string>, message: string,
    confirmText: Option<string>, cancelText: Option<string>,
    kind: Option<DialogKind>, onConfirm: bool, onCancel: bool)

  /** The buttons of a shown dialog: whether the caller's `onConfirm` and
      `onCancel` will be run by them. */
  datatype Handlers = Handlers(callerConfirm: bool, callerCancel: bool)

  /** The hook's state record. */
  datatype DialogState = DialogState(
    show: bool, title: Option<string>, message: string,
    confirmText: Option<string>, cancelText: Option<string>,
    kind: Option<DialogKind>, handlers: Option<Handlers>)

  /** `{ show: false, message: '' }`. */
  const Hidden := DialogState(false, None, "", None, None, None, None)

  /** `{ show: true, ...options, onConfirm, onCancel }`. */
  function Shown(o: Options): (r: DialogState)
    ensures r.show && r.handlers == Some(Handlers(o.onConfirm, o.onCancel))
    ensures r.title == o.title && r.message == o.message && r.confirmText == o.confirmText &&
            r.cancelText == o.cancelText && r.kind == o.kind
  {
    DialogState(true, o.title, o.message, o.confirmText, o.cancelText, o.kind,
                Some(Handlers(o.onConfirm, o.onCancel)))
  }

  /** What the component draws: its texts with the prop defaults filled in. */
  datatype View = View(title: string, message: string, confirmText: string, cancelText: string, kind: DialogKind)

  const DefaultTitle := "Konfirmasi"
  const DefaultConfirmText := "Ya, Lanjutkan"
  const DefaultCancelText := "Batal"

  /** `ConfirmationDialog` given the hook's record: nothing when it is not
      shown, otherwise the texts, each absent one replaced by its default
      ('Konfirmasi', 'Ya, Lanjutkan', 'Batal', warning). */
  function Render(s: DialogState): (r: Option<View>)
    ensures r.None? <==> !s.show
    ensures r.Some? ==> r.value.message == s.message
    ensures r.Some? ==> r.value.title == (if s.title.Some? then s.title.value else DefaultTitle)
    ensures r.Some? ==> r.value.confirmText == (if s.confirmText.Some? then s.confirmText.value else DefaultConfirmText)
    ensures r.Some? ==> r.value.cancelText == (if s.cancelText.Some? then s.cancelText.value else DefaultCancelText)
    ensures r.Some? ==> r.value.kind == (if s.kind.Some? then s.kind.value else Warning)
  {
    if !s.show then None
    else
      Some(View(
        if s.title.Some? then s.title.value else DefaultTitle,
        s.message,
        if s.confirmText.Some? then s.confirmText.value else DefaultConfirmText,
        if s.cancelText.Some? then s.cancelText.value else DefaultCancelText,
        if s.kind.Some? then s.kind.value else Warning))
  }

  /** A caller that only gives a message sees the default dialog. */
  lemma MessageOnlyDialog(message: string, onConfirm: bool, onCancel: bool)
    ensures Render(Shown(Options(None, message, None, None, None, onConfirm, onCancel)))
              == Some(View(DefaultTitle, message, DefaultConfirmText, DefaultCancelText, Warning))
  {
  }

  /** The record is shown exactly when its buttons are installed. */
  predicate Consistent(s: DialogState)
  {
    s.show <==> s.handlers.Some?
  }

  /** Both ends of every transition are consistent, and only a consistent
      shown record draws anything. */
  lemma TransitionsConsistent(o: Options)
    ensures Consistent(Hidden) && Consistent(Shown(o))
    ensures Render(Hidden).None? && Render(Shown(o)).Some?
  {
  }

  class ConfirmationHook {
    var state: DialogState

    constructor()
      ensures state == Hidden
    {
      state := Hidden;
    }

    /** `showConfirmation(options)`: the dialog is shown with the caller's
        texts and kind. A dialog that was still open is replaced, and the
        promise it returned will never resolve (`abandoned`). */
    method ShowConfirmation(o: Options) returns (abandoned: bool)
      modifies this
      ensures state == Shown(o)
      ensures abandoned == old(state.handlers.Some?)
    {
      abandoned := state.handlers.Some?;
      state := Shown(o);
    }

    /** The confirm button: the record goes back to hidden, the caller's
        `onConfirm` runs if it was given, and the promise resolves `true`. */
    method Confirm() returns (callerRan: bool, resolved: bool)
      requires state.handlers.Some?
      modifies this
      ensures state == Hidden
      ensures callerRan == old(state.handlers.value.callerConfirm)
      ensures resolved
    {
      var h := state.handlers.value;
      state := Hidden;
      callerRan := h.callerConfirm;
      resolved := true;
    }

    /** The cancel button: the record goes back to hidden, the caller's
        `onCancel` runs if it was given, and the promise resolves `false`. */
    method Cancel() returns (callerRan: bool, resolved: bool)
      requires state.handlers.Some?
      modifies this
      ensures state == Hidden
      ensures callerRan == old(state.handlers.value.callerCancel)
      ensures !resolved
    {
      var h := state.handlers.value;
      state := Hidden;
      callerRan := h.callerCancel;
      resolved := false;
    }

    /** `hideConfirmation()`: back to hidden without running any callback;
        a pending promise is left unresolved (`abandoned`). */
    method HideConfirmation() returns (abandoned: bool)
      modifies this
      ensures state == Hidden
      ensures abandoned == old(state.handlers.Some?)
    {
      abandoned := state.handlers.Some?;
      state := Hidden;
    }
  }
}
