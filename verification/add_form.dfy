/**
 * The add-bookmark form: `title`, `url` and `isSubmitting`, the `isLoading` prop, the
 * inputs' `onChange`, and `handleSubmit`, which refuses blank fields, raises
 * `isSubmitting`, awaits `onSubmit(title, url)`, clears the fields only on success and
 * lowers `isSubmitting` in its `finally`. The await splits `handleSubmit` into two atomic
 * steps: `HandleSubmit` up to the call and `Settle` once the call has settled.
 */
module AddForm {
  import opened Wrappers
  import opened Text

  /** The arguments `handleSubmit` passes to `onSubmit`. */
  datatype SubmitCall = SubmitCall(title: string, url: string)

  /** The form's state together with its `isLoading` prop. */
  datatype FormState = FormState(title: string, url: string, isSubmitting: bool, isLoading: bool)

  /**
   * `isDisabled`, the submit button's `disabled`: an enabled button always leads to a
   * call of `onSubmit`.
   */
  predicate Disabled(s: FormState)
    ensures !Disabled(s) ==> SubmitStep(s).1.Some?
  {
    s.isSubmitting || s.isLoading || IsBlank(s.title) || IsBlank(s.url)
  }

  /** The inputs' `disabled`: a disabled input fires no `onChange`. */
  predicate InputsLocked(s: FormState) {
    s.isSubmitting || s.isLoading
  }

  /** A change the user makes to one of the two inputs. */
  datatype Edit = TypeTitle(title: string) | TypeUrl(url: string)

  /** `onChange` of the input the edit is for. */
  function ApplyEdit(s: FormState, e: Edit): FormState {
    if InputsLocked(s) then s
    else
      match e
      case TypeTitle(t) => s.(title := t)
      case TypeUrl(u) => s.(url := u)
  }

  /** Several edits, one after the other. */
  function ApplyEdits(s: FormState, edits: seq<Edit>): FormState
    decreases |edits|
  {
    if edits == [] then s else ApplyEdits(ApplyEdit(s, edits[0]), edits[1..])
  }

  /** `handleSubmit` up to the `await`: the new state and the call made, if any. */
  function SubmitStep(s: FormState): (r: (FormState, Option<SubmitCall>))
    ensures r.1.Some? <==> !IsBlank(s.title) && !IsBlank(s.url)
    ensures r.1.Some? ==> r.1.value == SubmitCall(s.title, s.url) && r.0.isSubmitting
    ensures r.0.title == s.title && r.0.url == s.url && r.0.isLoading == s.isLoading
  {
    if IsBlank(s.title) || IsBlank(s.url) then (s, None)
    else (s.(isSubmitting := true), Some(SubmitCall(s.title, s.url)))
  }

  /** `handleSubmit` after `onSubmit` resolved (`succeeded`) or rejected. */
  function SettleStep(s: FormState, succeeded: bool): (r: FormState)
    ensures !r.isSubmitting && r.isLoading == s.isLoading
    ensures succeeded ==> r.title == "" && r.url == ""
    ensures !succeeded ==> r.title == s.title && r.url == s.url
  {
    if succeeded then s.(title := "", url := "", isSubmitting := false)
    else s.(isSubmitting := false)
  }

  /** A blank title or url stops the submission: no call, and no state changes. */
  lemma BlankSubmitChangesNothing(s: FormState)
    requires IsBlank(s.title) || IsBlank(s.url)
    ensures SubmitStep(s).1.None? && SubmitStep(s).0 == s
  {
  }

  /**
   * Otherwise `onSubmit` receives the fields exactly as typed, untrimmed, and the form is
   * submitting, with its button disabled, until the call settles.
   */
  lemma SubmitPassesFieldsAsTyped(s: FormState)
    requires !IsBlank(s.title) && !IsBlank(s.url)
    ensures SubmitStep(s).1 == Some(SubmitCall(s.title, s.url))
    ensures SubmitStep(s).0 == s.(isSubmitting := true)
    ensures Disabled(SubmitStep(s).0)
  {
  }

  /** While the form is submitting or loading, edits are ignored. */
  lemma {:induction false} LockedIgnoresEdits(s: FormState, edits: seq<Edit>)
    requires InputsLocked(s)
    ensures ApplyEdits(s, edits) == s
    decreases |edits|
  {
    if edits != [] {
      LockedIgnoresEdits(ApplyEdit(s, edits[0]), edits[1..]);
    }
  }

  /**
   * A successful submission, whatever the user tried to type while it was pending, ends
   * with both fields empty, `isSubmitting` false and the button disabled.
   */
  lemma SuccessClearsFields(s: FormState, pending: seq<Edit>)
    requires SubmitStep(s).1.Some?
    ensures var after := SettleStep(ApplyEdits(SubmitStep(s).0, pending), true);
            && after.title == "" && after.url == ""
            && !after.isSubmitting && after.isLoading == s.isLoading
            && Disabled(after)
  {
    LockedIgnoresEdits(SubmitStep(s).0, pending);
  }

  /**
   * A failed submission, whatever the user tried to type while it was pending, ends
   * with the fields holding exactly what was submitted and `isSubmitting` false, so the
   * button is enabled again unless the page is loading.
   */
  lemma FailureKeepsFields(s: FormState, pending: seq<Edit>)
    requires SubmitStep(s).1.Some?
    ensures var after := SettleStep(ApplyEdits(SubmitStep(s).0, pending), false);
            && after.title == SubmitStep(s).1.value.title
            && after.url == SubmitStep(s).1.value.url
            && !after.isSubmitting
            && (Disabled(after) <==> s.isLoading)
  {
    LockedIgnoresEdits(SubmitStep(s).0, pending);
  }

  class AddBookmarkForm {
    var title: string
    var url: string
    var isSubmitting: bool
    /** The `isLoading` prop the dashboard passes in. */
    var isLoading: bool

    function State(): FormState
      reads this
    {
      FormState(title, url, isSubmitting, isLoading)
    }

    constructor(isLoading: bool)
      ensures State() == FormState("", "", false, isLoading)
    {
      title := "";
      url := "";
      isSubmitting := false;
      this.isLoading := isLoading;
    }

    /** The user types into the title or the url input. */
    method Type(e: Edit)
      modifies this`title, this`url
      ensures State() == ApplyEdit(old(State()), e)
    {
      if !(isSubmitting || isLoading) {
        match e
        case TypeTitle(t) => title := t;
        case TypeUrl(u) => url := u;
      }
    }

    /** The parent re-renders the form with a new `isLoading`. */
    method SetLoading(loading: bool)
      modifies this`isLoading
      ensures State() == old(State()).(isLoading := loading)
    {
      isLoading := loading;
    }

    /** `handleSubmit` up to the `await onSubmit(title, url)`. */
    method HandleSubmit() returns (call: Option<SubmitCall>)
      modifies this`isSubmitting
      ensures (State(), call) == SubmitStep(old(State()))
    {
      if IsBlank(title) || IsBlank(url) {
        return None;
      }
      isSubmitting := true;
      call := Some(SubmitCall(title, url));
    }

    /** The rest of `handleSubmit`, once `onSubmit` has resolved or rejected. */
    method Settle(succeeded: bool)
      modifies this`title, this`url, this`isSubmitting
      ensures State() == SettleStep(old(State()), succeeded)
    {
      if succeeded {
        title := "";
        url := "";
      }
      isSubmitting := false;
    }
  }
}
