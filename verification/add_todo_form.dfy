/**
 The add-todo form: two text fields and a loading flag. Submitting awaits
 the page's `onAdd` and clears the fields only if that promise resolves.
 */
module AddTodoForm {

  import opened Text
  import opened Records

  datatype Form = Form(title: string, description: string, isLoading: bool)

  const Initial: Form := Form("", "", false)

  /** `onAdd(title, description)`. */
  datatype AddCall = AddCall(title: string, description: string)

  /** `disabled={!title.trim() || isLoading}`, negated. */
  predicate SubmitEnabled(f: Form)
    // Enabled exactly when idle and the trimmed title is not empty.
    ensures SubmitEnabled(f) <==> !f.isLoading && Trim(f.title) != []
  {
    !IsBlank(f.title) && !f.isLoading
  }

  /** `handleSubmit`, with `outcome` saying how `onAdd` settled. */
  function Submit(f: Form, outcome: Outcome): (r: Run<Form, AddCall>)
    // A blank title does nothing at all.
    ensures IsBlank(f.title) ==> r.call.None? && r.pending == f && r.settled == f
    // Otherwise `onAdd` gets the raw, untrimmed fields, with the form loading meanwhile.
    ensures !IsBlank(f.title) ==>
              r.call == Some(AddCall(f.title, f.description)) && r.pending == f.(isLoading := true)
    // Afterwards the form is not loading, and it is cleared exactly when `onAdd` resolved.
    ensures r.call.Some? ==> !r.settled.isLoading
    ensures r.call.Some? && outcome == Resolved ==> r.settled == Initial
    ensures r.call.Some? && outcome == Rejected ==> r.settled == f.(isLoading := false)
  {
    if IsBlank(f.title) then Run(f, None, f)
    else
      var pending := f.(isLoading := true);
      var settled := if outcome == Resolved then Form("", "", false) else pending.(isLoading := false);
      Run(pending, Some(AddCall(f.title, f.description)), settled)
  }

  /** The submit button is enabled exactly when submitting would call `onAdd`
      and the form is idle. */
  lemma EnabledIffSubmits(f: Form, outcome: Outcome)
    ensures SubmitEnabled(f) <==> Submit(f, outcome).call.Some? && !f.isLoading
  {
  }

  /** A cleared form cannot be submitted again: its button is disabled. */
  lemma ClearedFormDisabled(f: Form)
    requires Submit(f, Resolved).call.Some?
    ensures !SubmitEnabled(Submit(f, Resolved).settled)
  {
    EmptyIsBlank();
  }
}
