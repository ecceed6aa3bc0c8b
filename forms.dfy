/** The two form handlers whose input checks run before any request:
    submitDecision (approve or reject a technician's KYC) and
    saveCategoryFromModal (create or edit a service category). Each is
    modelled as the call it hands to makeAuthenticatedRequest, or why it
    makes none. */
module Forms {
  import opened Wrappers
  import opened Text
  import opened Http

  /** An endpoint and options for makeAuthenticatedRequest. */
  datatype Call = Call(endpoint: string, options: Options)

  /** The headers both handlers pass: only the JSON content type. */
  const JsonHeaders := map[ContentTypeHeader := JsonMediaType]

  /** submitDecision, given the pending decision (`currentDecision`), the
      selected technician and the raw value of the notes field. A
      rejection whose notes are blank is refused; anything else goes on to
      performKycVerification, which POSTs the decision and the trimmed
      notes. An approval with blank notes is not refused. */
  function SubmitDecision(decision: Option<string>, technicianId: string, notesField: string): (c: Option<Call>)
    ensures c.None? <==> decision == Some("reject") && forall i :: 0 <= i < |notesField| ==> IsSpace(notesField[i])
    ensures c.Some? ==> c.value.endpoint == "/kyc-admin/technicians/" + technicianId + "/final-verification"
    ensures c.Some? ==> c.value.options == Options(Some("POST"), JsonHeaders, Some(VerificationPayload(decision, Trim(notesField))))
  {
    var notes := Trim(notesField);
    if decision == Some("reject") && notes == "" then None
    else Some(Call("/kyc-admin/technicians/" + technicianId + "/final-verification",
                   Options(Some("POST"), JsonHeaders, Some(VerificationPayload(decision, notes)))))
  }

  /** What saveCategoryFromModal does. */
  datatype CategorySave =
    | NameRequired      // "Category name is required!", no request
    | NoAction          // neither create nor edit: no request, then the handler fails on the missing response
    | Send(call: Call)

  /** saveCategoryFromModal, given `currentCategoryAction`,
      `currentCategoryId` and the raw form fields. A blank name is refused
      first; then "create" POSTs to /admin/categories and "edit" PUTs to
      /admin/categories/{id}, both with the trimmed name and description. */
  function SaveCategory(action: Option<string>, categoryId: string, nameField: string,
                        descriptionField: string, isActive: bool): (r: CategorySave)
    ensures r == NameRequired <==> forall i :: 0 <= i < |nameField| ==> IsSpace(nameField[i])
    ensures r.Send? <==> Trim(nameField) != "" && (action == Some("create") || action == Some("edit"))
    ensures r.Send? ==> r.call.options.headers == JsonHeaders
    ensures r.Send? ==> r.call.options.body == Some(CategoryPayload(Trim(nameField), Trim(descriptionField), isActive))
    ensures r.Send? && action == Some("create") ==>
      r.call.endpoint == "/admin/categories" && r.call.options.verb == Some("POST")
    ensures r.Send? && action == Some("edit") ==>
      r.call.endpoint == "/admin/categories/" + categoryId && r.call.options.verb == Some("PUT")
  {
    var name := Trim(nameField);
    var payload := Some(CategoryPayload(name, Trim(descriptionField), isActive));
    if name == "" then NameRequired
    else if action == Some("create") then Send(Call("/admin/categories", Options(Some("POST"), JsonHeaders, payload)))
    else if action == Some("edit") then Send(Call("/admin/categories/" + categoryId, Options(Some("PUT"), JsonHeaders, payload)))
    else NoAction
  }

  /** The Content-Type the handlers pass is the one makeAuthenticatedRequest
      would have used anyway, so the request carries exactly the default
      headers and the bearer token. */
  lemma FormRequestsKeepDefaultHeaders(token: string, c: Call)
    requires c.options.headers == JsonHeaders
    ensures BuildRequest(token, c.endpoint, c.options).headers == DefaultHeaders(token)
  {
    assert DefaultHeaders(token) + JsonHeaders == DefaultHeaders(token);
  }
}
