/** The cases of `GuestbookEntryUnitTests`, stated for every clock reading
    and, where the test does not depend on it, for every email validator. */
module GuestbookEntryUnitTests {
  import opened Wrappers
  import opened Guestbook
  import opened StringUtils

  /** `rejectsEmptyName`. */
  lemma RejectsEmptyName(now: Instant, validEmail: string -> bool)
    ensures Construct(Some(""), Some("test@testing.com"), Some("May the 4th be with you!"), now, validEmail)
         == Failure(NameMissing)
  {
  }

  /** `rejectsEmptyEmail`. */
  lemma RejectsEmptyEmail(now: Instant, validEmail: string -> bool)
    ensures Construct(Some("Olli"), Some(""), Some("Great"), now, validEmail) == Failure(EmailMissing)
  {
  }

  /** `rejectsEmptyText`: the text check comes before the email-validity
      check, so the text error is reported whatever the validator says. */
  lemma RejectsEmptyText(now: Instant, validEmail: string -> bool)
    ensures Construct(Some("Ollie"), Some("ollie@ollie.de"), Some(""), now, validEmail) == Failure(TextMissing)
  {
  }

  /** `setsCreationDate`, given a validator that accepts the address. */
  lemma SetsCreationDate(now: Instant, validEmail: string -> bool)
    requires validEmail("ollie@ollie.de")
    ensures Construct(Some("Ollie"), Some("ollie@ollie.de"), Some("May the 4th be with you!"), now, validEmail)
         == Success(Entry(None, Some("Ollie"), Some("ollie@ollie.de"), Some("May the 4th be with you!"), Some(now)))
  {
    assert !IsWhitespace("Ollie"[0]);
    assert !IsWhitespace("ollie@ollie.de"[0]);
    assert !IsWhitespace("May the 4th be with you!"[0]);
  }

}
