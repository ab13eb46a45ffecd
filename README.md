# Guestbook entry, modelled in Dafny

The repository's logic is one domain entity, `guestbook.GuestbookEntry`: a
guestbook entry with a name, an email address, a message text, a creation
date and an identifier generated by the persistence layer. Its public
constructor runs four checks in a fixed order — the name has text, the email
has text, the text has text, the email is syntactically valid — and throws an
`IllegalArgumentException` at the first one that fails. Only when all pass
does it store the three strings and the current date-time. The entry then
exposes its fields through read-only accessors.

The model is pure, like the source:

- `Wrappers` — `Option` (a Java reference that may be null) and `Result`
  (an object, or the exception the constructor throws).
- `StringUtils` — Spring's `hasText` test: `IsWhitespace` follows
  `java.lang.Character.isWhitespace`, `ContainsText` is the left-to-right
  scan for a non-whitespace character, and `HasText` adds "not null, not
  empty". `IsBlank` describes the rejected values independently ("null,
  empty, or only whitespace").
- `Guestbook` — the `Entry` datatype with its accessors, the `Error` tag of
  each check with its message, and `Construct`, the constructor. The email
  validator is the parameter `validEmail` and the clock reading is the
  parameter `now`. `Fails(c, …)` states what each check rejects on its own
  and `Rank(c)` its position, so the lemmas can state the check order
  without repeating the constructor's `if` chain. `Valid` is the invariant
  of every constructed entry.
- `GuestbookEntryUnitTests` — the repository's unit tests as lemmas, for
  every clock reading and, where the outcome does not depend on it, for
  every email validator.

The constructor's documentation and its messages (GuestbookEntry.java:46-47,
51-53) say the arguments "must not be null or empty". The model follows what
the code does: `Assert.hasText` also rejects a value made only of
whitespace, so an email of `"   "` gives the email-missing error.

## Model

| member | source | states |
|---|---|---|
| `StringUtils.ContainsTextIffSomeNonWhitespace` | src/main/java/guestbook/GuestbookEntry.java:51-53 | the left-to-right scan behind `Assert.hasText` answers true exactly when some character of the string is not whitespace |
| `StringUtils.HasTextIffNotBlank` | src/main/java/guestbook/GuestbookEntry.java:51-53 | `hasText` accepts a value exactly when it is not null, not empty and not all whitespace |
| `Guestbook.Construct` | src/main/java/guestbook/GuestbookEntry.java:49-60 | a failure names a check that really fails on the arguments; a success is a valid entry holding the three arguments unchanged, the clock reading as its date, and no identifier |
| `Guestbook.SucceedsIffAllChecksPass` | src/main/java/guestbook/GuestbookEntry.java:51-59 | construction succeeds if and only if none of the four checks fails |
| `Guestbook.FirstFailingCheckReported` | src/main/java/guestbook/GuestbookEntry.java:51-54 | construction fails with check c if and only if c fails and every check before it (name, email present, text, email valid) passes |
| `Guestbook.BlankNameRejected` | src/main/java/guestbook/GuestbookEntry.java:51 | a null, empty or all-whitespace name gives the name error whatever the other arguments are |
| `Guestbook.BlankEmailRejected` | src/main/java/guestbook/GuestbookEntry.java:51-52 | with a name present, a null, empty or all-whitespace email gives the email-missing error |
| `Guestbook.BlankTextRejected` | src/main/java/guestbook/GuestbookEntry.java:51-54 | with name and email present, a blank text gives the text error, whether or not the email is valid |
| `Guestbook.InvalidEmailRejected` | src/main/java/guestbook/GuestbookEntry.java:51-54 | with all three present, an email the validator refuses gives the email-invalid error |
| `Guestbook.AccessorsAfterConstruction` | src/main/java/guestbook/GuestbookEntry.java:70-88 | the accessors `Entry.GetName`, `GetEmail`, `GetText`, `GetDate`, `GetId` read the fields stored at lines 56-59: after a successful construction `getName`, `getEmail`, `getText` return the arguments, `getDate` the clock reading (not null) and `getId` null |
| `Guestbook.ConstructedIffValid` | src/main/java/guestbook/GuestbookEntry.java:38-60 | the entries the constructor produces are exactly the valid entries without an identifier, and reconstructing from an entry's own fields gives it back |
| `Guestbook.MessageIdentifiesCheck` | src/main/java/guestbook/GuestbookEntry.java:51-54 | the four exception messages are pairwise distinct, so the message tells which check failed |
| `GuestbookEntryUnitTests.RejectsEmptyName` | src/test/java/guestbook/GuestbookEntryUnitTests.java:30-34 | `("", "test@testing.com", "May the 4th be with you!")` fails with the name error |
| `GuestbookEntryUnitTests.RejectsEmptyEmail` | src/test/java/guestbook/GuestbookEntryUnitTests.java:37-40 | `("Olli", "", "Great")` fails with the email-missing error |
| `GuestbookEntryUnitTests.RejectsEmptyText` | src/test/java/guestbook/GuestbookEntryUnitTests.java:43-47 | `("Ollie", "ollie@ollie.de", "")` fails with the text error, whatever the email validator says |
| `GuestbookEntryUnitTests.SetsCreationDate` | src/test/java/guestbook/GuestbookEntryUnitTests.java:50-52 | when the validator accepts `ollie@ollie.de`, the valid arguments construct an entry whose date is the clock reading and whose identifier is null |

## Left out

- The no-argument constructor (GuestbookEntry.java:62-68): it exists only for object mapping and yields an entry with every field null; it is not part of the public contract.
- Identifier generation (`@Id @GeneratedValue`, line 38): the persistence framework assigns `id` on first save and is not shown; the model only states that construction leaves `id` null. Its 64-bit `Long` range is not modelled.
- The grammar of Apache Commons `EmailValidator` (lines 25, 41, 54): a library whose source is not shown, so it is the uninterpreted parameter `validEmail`; its answer for null (false) is reflected in `Fails`, though that case is never reached because the email-missing check comes first.
- `LocalDateTime.now()` (line 59): the ambient clock is the parameter `now`; nothing is claimed about its value.
- The exception class and message texts are kept only as the `Error` tag and `Message`.
- Immutability of `name`, `email`, `text` and `date` (`final`, lines 39-40) holds by construction: entries are Dafny datatype values, so repeated accessor reads return the same value without a lemma.
- `StringUtils.IsWhitespace` follows the Unicode tables of current Java releases; Java 8 (Unicode 6.2) also counts U+180E as whitespace. Java strings are UTF-16 code units and Dafny strings Unicode scalar values; the surrogate halves of a supplementary character are not whitespace either way, so `hasText` gives the same answer.
- Lone surrogates: a Java `String` may hold an unpaired surrogate (such as `"\uD800"`), which `hasText` accepts; Dafny strings of Unicode scalar values cannot hold one, so such inputs are outside the model.
- Object identity: entries are Dafny values compared field by field (as in `ConstructedIffValid` and `SetsCreationDate`), whereas `GuestbookEntry` does not override `equals` and Java compares two entries by identity; rebuilding an entry from its fields would also read the clock again.
- Concurrency and the visibility of the `id` write: nothing in the code is concurrent.
