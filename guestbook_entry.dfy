/** The guestbook entry of `guestbook.GuestbookEntry`: an immutable value
    checked once, when it is constructed. */
module Guestbook {
  import opened Wrappers
  import opened StringUtils

  /** A reading of the clock (`LocalDateTime.now()`); its contents are not
      interpreted. */
  datatype Instant = Instant(ticks: int)

  /** The entry's fields. They are Java references, so each may be null;
      `id` is generated by the persistence layer and `name`, `email`, `text`
      and `date` never change once set. */
  datatype Entry = Entry(
    id: Option<int>,
    name: Option<string>,
    email: Option<string>,
    text: Option<string>,
    date: Option<Instant>)
  {
    function GetName(): Option<string> { name }
    function GetEmail(): Option<string> { email }
    function GetId(): Option<int> { id }
    function GetDate(): Option<Instant> { date }
    function GetText(): Option<string> { text }
  }

  /** The `IllegalArgumentException` the constructor throws, tagged by the
      check that failed. */
  datatype Error = NameMissing | EmailMissing | TextMissing | EmailInvalid

  /** The exception message of each check. */
  function Message(e: Error): string {
    match e
    case NameMissing => "Name must not be null or empty!"
    case EmailMissing => "Email must not be null or empty!"
    case TextMissing => "Text must not be null or empty!"
    case EmailInvalid => "Email must be valid"
  }

  /** The position of each check in the constructor, first to last. */
  function Rank(e: Error): nat {
    match e
    case NameMissing => 0
    case EmailMissing => 1
    case TextMissing => 2
    case EmailInvalid => 3
  }

  /** The check tagged `e`, taken on its own, rejects these arguments.
      `EmailValidator.isValid` returns false for null. */
  predicate Fails(e: Error, name: Option<string>, email: Option<string>, text: Option<string>,
                  validEmail: string -> bool)
  {
    match e
    case NameMissing => !HasText(name)
    case EmailMissing => !HasText(email)
    case TextMissing => !HasText(text)
    case EmailInvalid => email.None? || !validEmail(email.value)
  }

  /** The invariant of every entry the public constructor produces. */
  predicate Valid(e: Entry, validEmail: string -> bool) {
    && HasText(e.name)
    && HasText(e.email)
    && HasText(e.text)
    && validEmail(e.email.value)
    && e.date.Some?
  }

  /** `new GuestbookEntry(name, email, text)`, with the clock reading `now`
      and the email-syntax check `validEmail` passed in. The checks run in
      order and the first that fails aborts construction. */
  function Construct(name: Option<string>, email: Option<string>, text: Option<string>,
                     now: Instant, validEmail: string -> bool): (r: Result<Entry, Error>)
    ensures r.Failure? ==> Fails(r.error, name, email, text, validEmail)
    ensures r.Success? ==> Valid(r.value, validEmail)
    ensures r.Success? ==>
      && r.value.id.None?
      && r.value.name == name
      && r.value.email == email
      && r.value.text == text
      && r.value.date == Some(now)
  {
    if !HasText(name) then Failure(NameMissing)
    else if !HasText(email) then Failure(EmailMissing)
    else if !HasText(text) then Failure(TextMissing)
    else if !validEmail(email.value) then Failure(EmailInvalid)
    else Success(Entry(None, name, email, text, Some(now)))
  }

  /** Construction succeeds exactly when none of the four checks fails. */
  lemma SucceedsIffAllChecksPass(name: Option<string>, email: Option<string>, text: Option<string>,
                                 now: Instant, validEmail: string -> bool)
    ensures Construct(name, email, text, now, validEmail).Success?
        <==> forall c :: !Fails(c, name, email, text, validEmail)
  {
  }

  /** The reported error is the first failing check: construction fails with
      `c` exactly when check `c` fails and every earlier check passes. */
  lemma FirstFailingCheckReported(name: Option<string>, email: Option<string>, text: Option<string>,
                                  now: Instant, validEmail: string -> bool, c: Error)
    ensures Construct(name, email, text, now, validEmail) == Failure(c)
        <==> Fails(c, name, email, text, validEmail)
             && forall d :: Rank(d) < Rank(c) ==> !Fails(d, name, email, text, validEmail)
  {
  }

  /** A null, empty or all-whitespace name is rejected with the name error,
      whatever the other arguments are. */
  lemma BlankNameRejected(name: Option<string>, email: Option<string>, text: Option<string>,
                          now: Instant, validEmail: string -> bool)
    requires IsBlank(name)
    ensures Construct(name, email, text, now, validEmail) == Failure(NameMissing)
  {
    HasTextIffNotBlank(name);
  }

  /** With a name present, a blank email is rejected with the email error. */
  lemma BlankEmailRejected(name: Option<string>, email: Option<string>, text: Option<string>,
                           now: Instant, validEmail: string -> bool)
    requires !IsBlank(name) && IsBlank(email)
    ensures Construct(name, email, text, now, validEmail) == Failure(EmailMissing)
  {
    HasTextIffNotBlank(name);
    HasTextIffNotBlank(email);
  }

  /** With name and email present, a blank text is rejected with the text
      error, even when the email is not valid. */
  lemma BlankTextRejected(name: Option<string>, email: Option<string>, text: Option<string>,
                          now: Instant, validEmail: string -> bool)
    requires !IsBlank(name) && !IsBlank(email) && IsBlank(text)
    ensures Construct(name, email, text, now, validEmail) == Failure(TextMissing)
  {
    HasTextIffNotBlank(name);
    HasTextIffNotBlank(email);
    HasTextIffNotBlank(text);
  }

  /** With all three present, an email the validator refuses is rejected with
      the validity error. */
  lemma InvalidEmailRejected(name: Option<string>, email: string, text: Option<string>,
                             now: Instant, validEmail: string -> bool)
    requires !IsBlank(name) && !IsBlank(Some(email)) && !IsBlank(text)
    requires !validEmail(email)
    ensures Construct(name, Some(email), text, now, validEmail) == Failure(EmailInvalid)
  {
    HasTextIffNotBlank(name);
    HasTextIffNotBlank(Some(email));
    HasTextIffNotBlank(text);
  }

  /** The accessors of a constructed entry return the constructor's
      arguments, the clock reading, and no identifier. */
  lemma AccessorsAfterConstruction(name: Option<string>, email: Option<string>, text: Option<string>,
                                   now: Instant, validEmail: string -> bool)
    requires Construct(name, email, text, now, validEmail).Success?
    ensures var e := Construct(name, email, text, now, validEmail).value;
      && e.GetName() == name
      && e.GetEmail() == email
      && e.GetText() == text
      && e.GetDate() == Some(now)
      && e.GetId() == None
  {
  }

  /** The entries the constructor can produce are exactly the valid entries
      without an identifier; constructing again from an entry's own fields
      and date gives back the same entry. */
  lemma ConstructedIffValid(e: Entry, validEmail: string -> bool)
    ensures Valid(e, validEmail) && e.id.None?
        <==> e.date.Some? && Construct(e.name, e.email, e.text, e.date.value, validEmail) == Success(e)
  {
  }

  /** Each check throws its own message, so the message tells which check
      failed. */
  lemma MessageIdentifiesCheck(a: Error, b: Error)
    ensures Message(a) == Message(b) <==> a == b
  {
  }
}
