/**
 The add-note form: title, content and a type select. Submitting fires the
 page's `onAdd` without awaiting it and resets the form straight away.
 */
module AddNoteForm {

  import opened Text
  import opened Records

  datatype Form = Form(title: string, content: string, kind: NoteType)

  /** Empty fields, type `general`. */
  const Initial: Form := Form("", "", General)

  /** `onAdd(title, content, type)`. */
  datatype AddCall = AddCall(title: string, content: string, kind: NoteType)

  /** `handleSubmit`. */
  function Submit(f: Form): (r: Step<Form, AddCall>)
    ensures r.call.Some? <==> !IsBlank(f.title) && !IsBlank(f.content)
    ensures r.call.None? ==> r.state == f
    ensures r.call.Some? ==> r.call.value == AddCall(f.title, f.content, f.kind) && r.state == Initial
  {
    if !IsBlank(f.title) && !IsBlank(f.content) then
      Step(Form("", "", General), Some(AddCall(f.title, f.content, f.kind)))
    else
      Step(f, None)
  }

  /** Whatever the form held, a submit either leaves it alone or returns it
      to the initial state; a second submit right after an accepted one does
      nothing. */
  lemma ResubmitIsNoop(f: Form)
    requires Submit(f).call.Some?
    ensures Submit(Submit(f).state).call.None?
    ensures Submit(Submit(f).state).state == Initial
  {
    EmptyIsBlank();
  }

  /** A whitespace-only title is refused, though the route would store it. */
  lemma WhitespaceTitleRefused(content: string, kind: NoteType)
    ensures Submit(Form(" ", content, kind)).call.None?
  {
    SpaceIsBlank();
  }
}
