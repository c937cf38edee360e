/** The letter editor page and its email form: the state the click handlers
    of the "send letter", "cancel" and "send email" buttons change, and the
    response handler of the email request. */
module LetterPage {
  import opened JsString
  import opened LetterContent
  import opened EmailShape

  /** Why "send email" issued no request; each comes with its own alert. */
  datatype BlockReason =
    | MissingAddress    // a trimmed address field is empty
    | MalformedAddress  // a trimmed address fails the email-shape test
    | EmptyLetter       // the letter is empty or a bare line break

  /** What a click on "send email" produces: no request, or the one POST to
      `/send-email` with the body fields `sender_email`, `recipient_email` and
      `letter_content`. */
  datatype SendOutcome =
    | Blocked(reason: BlockReason)
    | Request(senderEmail: string, recipientEmail: string, letterContent: string)

  /** The two screens of the page: the editor with its buttons, or the form. */
  datatype Screen = Editing | Composing

  /** The gates of "send email", in the order the handler checks them, on the
      trimmed field values and the untrimmed letter markup. */
  ghost function Gate(sender: string, recipient: string, content: string): SendOutcome {
    if Trim(sender) == [] || Trim(recipient) == [] then Blocked(MissingAddress)
    else if !WellShaped(Trim(sender)) || !WellShaped(Trim(recipient)) then Blocked(MalformedAddress)
    else if IsBlankLetter(content) then Blocked(EmptyLetter)
    else Request(Trim(sender), Trim(recipient), content)
  }

  class Page {
    /** The editable area's markup (`innerHTML`). */
    var content: string
    /** Whether the area carries the `editable-area-empty` class. */
    var placeholderShown: bool
    /** Whether the editable area, the actions row and the download button are
        displayed (`block`, `flex`, `block`) rather than `none`. */
    var editorVisible: bool
    var actionsVisible: bool
    var downloadVisible: bool
    /** Whether the email form is displayed (`flex`) rather than `none`. */
    var formVisible: bool
    /** The values of the sender and recipient input fields. */
    var sender: string
    var recipient: string

    /** The page shows either the editor with its buttons or the form, and the
        form is only ever open over a letter that passed "send letter": the
        editable area is hidden while the form is shown, so the letter cannot
        be emptied there. */
    predicate Valid()
      reads this
    {
      editorVisible == actionsVisible && actionsVisible == downloadVisible &&
      downloadVisible == !formVisible &&
      (formVisible ==> !IsBlankLetter(content))
    }

    function CurrentScreen(): Screen
      reads this
    {
      if formVisible then Composing else Editing
    }

    /** The page as loaded, after the load handler's first placeholder check. */
    constructor (initial: string)
      ensures Valid() && CurrentScreen() == Editing
      ensures content == initial && sender == [] && recipient == []
      ensures placeholderShown == ShowsPlaceholder(initial)
    {
      content := initial;
      editorVisible, actionsVisible, downloadVisible, formVisible := true, true, true, false;
      sender, recipient := [], [];
      placeholderShown := IsVisuallyEmpty(Trim(initial));
    }

    /** Sets the placeholder class from the current content.  The new flag does
        not depend on the old one, so a second call changes nothing. */
    method UpdatePlaceholder()
      modifies this`placeholderShown
      ensures placeholderShown == ShowsPlaceholder(content)
    {
      var t := Trim(content);
      placeholderShown := IsVisuallyEmpty(t);
    }

    /** The user edits the letter, which is only possible while the editable
        area is shown; the content observer refreshes the class. */
    method Edit(newContent: string)
      requires Valid() && CurrentScreen() == Editing
      modifies this`content, this`placeholderShown
      ensures Valid() && CurrentScreen() == Editing
      ensures content == newContent
      ensures placeholderShown == ShowsPlaceholder(newContent)
    {
      content := newContent;
      UpdatePlaceholder();
    }

    /** "Send letter": refuses a blank letter and changes nothing; otherwise
        hides the editor, the actions row and the download button and opens
        the form.  The fields and the letter are never touched. */
    method OnSendLetter() returns (formOpened: bool)
      requires Valid()
      modifies this`editorVisible, this`actionsVisible, this`downloadVisible, this`formVisible
      ensures Valid()
      ensures formOpened == !IsBlankLetter(content)
      ensures !formOpened ==> unchanged(this)
      ensures formOpened ==> CurrentScreen() == Composing
      ensures formOpened ==> formVisible && !editorVisible && !actionsVisible && !downloadVisible
    {
      var t := Trim(content);
      if t == [] || t == "<br>" {
        return false;
      }
      editorVisible, actionsVisible, downloadVisible := false, false, false;
      formVisible := true;
      formOpened := true;
    }

    /** What both "cancel" and a successful response do: close the form, clear
        both fields, and show the editor, the actions row and the download button. */
    method RestoreEditor()
      modifies this`editorVisible, this`actionsVisible, this`downloadVisible, this`formVisible
      modifies this`sender, this`recipient
      ensures Valid() && CurrentScreen() == Editing
      ensures !formVisible && editorVisible && actionsVisible && downloadVisible
      ensures sender == [] && recipient == []
    {
      formVisible := false;
      sender, recipient := [], [];
      editorVisible, actionsVisible, downloadVisible := true, true, true;
    }

    /** "Cancel". */
    method OnCancel()
      modifies this`editorVisible, this`actionsVisible, this`downloadVisible, this`formVisible
      modifies this`sender, this`recipient
      ensures Valid() && CurrentScreen() == Editing
      ensures !formVisible && editorVisible && actionsVisible && downloadVisible
      ensures sender == [] && recipient == []
    {
      RestoreEditor();
    }

    /** "Send email": checks the gates in order and, when all pass, produces
        the one request.  It changes nothing on the page. */
    method OnSendEmail() returns (out: SendOutcome)
      ensures out == Gate(sender, recipient, content)
      ensures Valid() && CurrentScreen() == Composing ==> out != Blocked(EmptyLetter)
    {
      var senderEmail := Trim(sender);
      var recipientEmail := Trim(recipient);
      var letterContent := content;
      if senderEmail == [] || recipientEmail == [] {
        return Blocked(MissingAddress);
      }
      var senderOk := IsEmailShaped(senderEmail);
      var recipientOk := false;
      if senderOk {
        recipientOk := IsEmailShaped(recipientEmail);
      }
      if !senderOk || !recipientOk {
        return Blocked(MalformedAddress);
      }
      var t := Trim(letterContent);
      if t == [] || t == "<br>" {
        return Blocked(EmptyLetter);
      }
      out := Request(senderEmail, recipientEmail, letterContent);
    }

    /** The settled request: on success the form closes as on "cancel"; on any
        failure (a non-2xx status, a network error, an unreadable body) the
        page stays as it is for another try. */
    method OnResponse(ok: bool)
      requires Valid()
      modifies this`editorVisible, this`actionsVisible, this`downloadVisible, this`formVisible
      modifies this`sender, this`recipient
      ensures Valid()
      ensures ok ==> CurrentScreen() == Editing && sender == [] && recipient == []
      ensures ok ==> !formVisible && editorVisible && actionsVisible && downloadVisible
      ensures !ok ==> unchanged(this)
    {
      if ok {
        RestoreEditor();
      }
    }
  }

  /** A request is issued only for two well-shaped, trimmed addresses and a
      letter that the send gate accepts, and it carries exactly those. */
  lemma RequestIsValidated(sender: string, recipient: string, content: string)
    ensures Gate(sender, recipient, content).Request? <==>
      WellShaped(Trim(sender)) && WellShaped(Trim(recipient)) && !IsBlankLetter(content)
    ensures Gate(sender, recipient, content).Request? ==>
      Gate(sender, recipient, content) == Request(Trim(sender), Trim(recipient), content)
  {
  }

  /** On the form screen the letter has already passed "send letter", so the
      empty-letter gate of "send email" never fires. */
  lemma ComposingLetterIsNotBlank(p: Page)
    requires p.Valid() && p.CurrentScreen() == Composing
    ensures !IsBlankLetter(p.content)
    ensures Gate(p.sender, p.recipient, p.content) != Blocked(EmptyLetter)
  {
  }

  /** The first failing gate decides the alert. */
  lemma GateOrder(sender: string, recipient: string, content: string)
    ensures Gate(sender, recipient, content) == Blocked(MissingAddress) <==>
      Trim(sender) == [] || Trim(recipient) == []
    ensures Gate(sender, recipient, content) == Blocked(MalformedAddress) <==>
      Trim(sender) != [] && Trim(recipient) != [] &&
      (!WellShaped(Trim(sender)) || !WellShaped(Trim(recipient)))
    ensures Gate(sender, recipient, content) == Blocked(EmptyLetter) <==>
      WellShaped(Trim(sender)) && WellShaped(Trim(recipient)) && IsBlankLetter(content)
  {
  }

  /** Addresses and a letter that need no trimming and pass every gate give
      the request with exactly those three values. */
  lemma GateOnCleanInput(sender: string, recipient: string, content: string)
    requires IsTrimmed(sender) && IsTrimmed(recipient) && IsTrimmed(content)
    requires WellShaped(sender) && WellShaped(recipient)
    requires content != [] && content != "<br>"
    ensures Gate(sender, recipient, content) == Request(sender, recipient, content)
  {
    TrimOfTrimmed(sender);
    TrimOfTrimmed(recipient);
    TestsOnTrimmedContent(content);
  }

  lemma HelloGate()
    ensures Gate("a@b.com", "c@d.com", "Hello") == Request("a@b.com", "c@d.com", "Hello")
    ensures !IsBlankLetter("Hello")
  {
    AcceptsCommonAddresses();
    GateOnCleanInput("a@b.com", "c@d.com", "Hello");
    TestsOnTrimmedContent("Hello");
  }

  /** A letter `Hello` from `a@b.com` to `c@d.com`: the form opens, one request
      carries the three values, and a successful reply closes the form and
      clears both fields. */
  method HelloLetterIsSent() returns (formOpened: bool, out: SendOutcome, formAfter: bool, fieldsAfter: (string, string))
    ensures formOpened
    ensures out == Request("a@b.com", "c@d.com", "Hello")
    ensures !formAfter && fieldsAfter == ([], [])
  {
    HelloGate();
    var page := new Page("Hello");
    formOpened := page.OnSendLetter();
    page.sender, page.recipient := "a@b.com", "c@d.com";
    out := page.OnSendEmail();
    page.OnResponse(true);
    formAfter, fieldsAfter := page.formVisible, (page.sender, page.recipient);
  }

  /** An empty draft: "send letter" leaves the form hidden. */
  method EmptyDraftKeepsFormHidden() returns (formOpened: bool, formAfter: bool)
    ensures !formOpened && !formAfter
  {
    var page := new Page("");
    formOpened := page.OnSendLetter();
    formAfter := page.formVisible;
  }
}
