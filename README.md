# Weekly development email: record normalisation and recipient resolution

A Dafny model of the data-handling core of `main.py`, a script that reads a Notion
"Dev Releases" database and a "Development Tasks" database and mails a weekly
HTML digest. The model covers the parts of the script that turn loosely typed
Notion pages into flat values:

- `extract_release_data` and `extract_task_data`, the two record normalisers;
- the result-processing half of `get_recipients_from_releases`, with the query
  results passed in as a value;
- the fallback recipient lists parsed from the `RECIPIENTS` and
  `CC_RECIPIENTS` settings;
- the priority-badge colour;
- the no-recipient guard and the To-then-CC send list of `send_email`;
- the `\n` → `<br>` rewrite of the `EMAIL_SIGNATURE` setting.

Modules:

- `PyJson` (`pyjson.dfy`) holds the shared pieces:
  - **JSON values.** Python's None, bool, number, str, list and dict. A dict is an ordered list of pairs, so `properties.items()` keeps its order.
  - **Exceptions.** `Py<T>` is either a value or a Python exception: `KeyError`, `IndexError`, `TypeError` or `AttributeError`.
  - **Python operations.** `d[k]`, `d.get(k)`, `k in d`, `x[0]`, `len(x)` and truthiness, each with the exception Python raises on a value of the wrong shape, and `try/except` as `Catch`.
  - **`Path`.** A reference notion of "the value at this chain of dict keys", used to state what the normalisers return.
- `Text` (`text.dfy`) holds the string operations: `strip`, `split(',')`, `s[-8:]`, `lower` and `replace`.
- `Records` (`records.dfy`) holds the two normalisers:
  - **Release records.** `extract_release_data` is a function, because it is straight-line guarded lookups.
  - **Task records.** `extract_task_data` scans `properties.items()` with a loop that breaks at the first usable title property. It is specified by a function and implemented as a method with that loop, proved equal to the function.
- `Recipients` (`recipients.dfy`) holds recipient resolution:
  - **Specification.** The functions `FieldAddresses`, `PageAddresses` and `Collected` say what one property, one page and all results contribute.
  - **Loops.** The script's loops (`+=` over fragments, `add` into sets, the loop over results, `list(set)`) are methods proved against those functions.
- `Delivery` (`delivery.dfy`) holds the priority colour, the send list and the signature rewrite.

A page that the Notion API could plausibly return is described by `NotionPage`:

- a string `id`;
- a dict of properties;
- each property a dict, whose `title` is a list when present.

On such pages both normalisers are proved never to raise, however malformed their fragments and nested values are. Outside that shape the model raises exactly where the script would, and only outside the script's try blocks:

- `page['properties']` on a page that is not a dict or has no properties (main.py:280, main.py:327);
- `'Description' in properties` and the other membership tests, on a properties value that is neither a dict, a list nor a string (main.py:284);
- `properties[name]` with a string name on a properties value that is a list or a string (main.py:284);
- `.get(...)` on a property value that is not a dict (main.py:284, main.py:336);
- `properties.items()` on a properties value that is not a dict (main.py:335);
- `len(prop_data['title'])` on a truthy title that has no length (main.py:337);
- `page['id'][-8:]` when the id fallback is needed and the id is missing (main.py:289, main.py:341, main.py:346); an id that is not a string is treated as a TypeError, as noted under Records.IdTag below.

So the normalisers can fail with KeyError, TypeError or AttributeError on a malformed page, and never with IndexError, which every try block catches.

## Model

| member | source | states |
|---|---|---|
| Records.ReleaseRecord | main.py:278-323 | release normalisation fails only with KeyError, TypeError or AttributeError, never with IndexError; what each field holds is stated by ReleaseTitle and ReleaseFields, and that a Notion-shaped page never fails by ReleaseNeverRaises |
| Records.IdTag | main.py:346 | the fallback title succeeds exactly for a string id and is then the prefix followed by `id[-8:]`; a page without an id raises KeyError, a non-string id TypeError |
| Records.FirstFragmentField | main.py:284-298 | the guarded first-fragment read fails only with the guard's TypeError or AttributeError or with the except-handler's own failure; its values are stated by FirstFragmentFieldValue |
| Records.NestedField | main.py:301-314 | the guarded nested read fails only with the guard's TypeError or AttributeError, never with the KeyError its try catches; its value is stated by NestedFieldValue |
| Records.ReleaseTitle | main.py:283-289 | the release title is "Untitled" when 'Event Name' or its title list is missing or falsy, the first fragment's text.content when that is well formed, and "Event " + id[-8:] otherwise; nothing else |
| Records.ReleaseFields | main.py:291-314 | description is the content of the first Description fragment only (or ""), date is Date.date.start and status is Status.status.name, each "" when not reachable |
| Records.ReleaseNeverRaises | main.py:278-323 | on a Notion-shaped page, release normalisation does not raise, whatever its fragments and nested values hold |
| Records.FirstFragmentFieldValue | main.py:284-298 | the guarded first-fragment read gives the default for a missing or falsy list, the first fragment's content when well formed, and the except-handler's value otherwise |
| Records.FragmentRead | main.py:285-289 | inside the try, a truthy list yields exactly the well-formed first fragment's content, and any failure is one of KeyError, IndexError, TypeError (so caught) |
| Records.NestedFieldValue | main.py:301-314 | the guarded nested read gives the value at name.field.leaf, or "" when that path is not reachable |
| Records.NotionFragmentRead | main.py:284-298 | on a Notion-shaped page the guarded first-fragment read of any property does not raise |
| Records.NotionNestedRead | main.py:301-314 | on a Notion-shaped page the guarded nested read of any property does not raise |
| Records.TaskRecord | main.py:325-380 | task normalisation fails only with KeyError, TypeError or AttributeError, never with IndexError; its fields are stated by TaskTitleFromTitleProperty, TaskTitleWithoutTitleProperty and TaskFields |
| Records.TitleScan | main.py:335-342 | the title scan fails only with TypeError or AttributeError, or with the id fallback's failure; where it stops is stated by ScanSkips, ScanFindsFirst and ScanFindsNone |
| Records.ExtractTaskData | main.py:325-380 | the loop with an early break over properties.items() computes exactly the task record (or exception) of the specification function |
| Records.ScanSkips | main.py:335-337 | a property that is not title-typed with a non-empty title list does not stop the scan |
| Records.ScanFindsFirst | main.py:335-342 | when the properties up to the first title property have Notion's shape, the scan ends there, giving its first fragment's content or the Task tag when that fragment is malformed; empty title lists do not stop it, and nothing after it is needed |
| Records.ScanIgnoresLater | main.py:342 | the `break`: after the scan reaches a title property, properties that follow, malformed or not, do not change its result |
| Records.ScanFindsNone | main.py:330-342 | without a title property the scan leaves the title "Untitled" |
| Records.ScanNeverRaises | main.py:335-342 | on Notion-shaped properties the scan does not raise |
| Records.TaskNeverRaises | main.py:325-380 | on a Notion-shaped page task normalisation does not raise |
| Records.TaskTitleFromTitleProperty | main.py:330-346 | for any task record that normalises, whatever follows the first title property: the title is that property's first-fragment content, unless that is malformed or literally "Untitled", in which case it is "Task " + id[-8:] |
| Records.TaskTitleWithoutTitleProperty | main.py:344-346 | with no title property the task title is "Task " + id[-8:] |
| Records.TaskTitleNeverUntitled | main.py:330-346 | whatever the page, a task title is never "Untitled" |
| Records.TaskFields | main.py:348-371 | task description is the first Description fragment's content (or ""), date is Done Date.date.start and priority is Priority.select.name, each "" when not reachable |
| Text.LastEight | main.py:289 | `id[-8:]` is the last eight characters, or the whole id when shorter |
| Text.StripSlice | main.py:110 | `strip()` cuts a whitespace run from each end and keeps the slice in between |
| Text.Strip | main.py:110 | the stripped string neither starts nor ends with whitespace |
| Text.StripStripped | main.py:110 | stripping a string without surrounding whitespace leaves it unchanged |
| Text.StripIdempotent | main.py:110 | stripping twice is stripping once |
| Text.StripEmpty | main.py:107 | a string strips to "" exactly when it is all whitespace |
| Text.Split | main.py:108 | `split(',')` gives at least one piece, no piece contains the separator, and rejoining the pieces gives the text back |
| Text.SplitJoin | main.py:108 | splitting a join of separator-free pieces gives the pieces back |
| Text.LowerProperties | main.py:497 | `lower()` leaves no upper-case letter, maps each upper-case letter to the lower-case letter in the same place, changes no other character, and lowering twice is lowering once |
| Text.Replace | main.py:400 | replacing a pattern by a text at least as long never shortens the string; what the signature rewrite does is stated by ReplaceAround, ReplaceLeavesNone and ReplaceKeeps |
| Recipients.Kept | main.py:108-112 | every address kept from the pieces is non-empty, contains '@' and has no surrounding whitespace; which ones are kept is stated by KeptMembers |
| Recipients.AddressesIn | main.py:108-112 | every address read from a comma-separated text is non-empty, contains '@' and has no surrounding whitespace |
| Recipients.KeptMembers | main.py:108-112 | an address is kept exactly when some piece of the split strips to it and it is non-empty and contains '@' |
| Recipients.AddressesOfJoined | main.py:108-112 | joining valid comma-free addresses with commas and reading them back gives exactly those addresses |
| Recipients.BlankTextHasNoAddresses | main.py:106-112 | an all-whitespace text yields no address, so the `email_text.strip()` guard never changes the result |
| Recipients.FieldAddresses | main.py:100-118 | every address a property contributes is non-empty, contains '@' and has no surrounding whitespace |
| Recipients.PageAddresses | main.py:96-139 | every To and CC address a page contributes is a valid address |
| Recipients.Collected | main.py:96-139 | every To and CC address collected over all results is a valid address |
| Recipients.JoinedText | main.py:104-105 | concatenating the fragments fails only with KeyError or TypeError; when it succeeds is stated by JoinedTextOk |
| Recipients.RichText | main.py:103-105 | reading a rich_text list fails only with KeyError or TypeError |
| Recipients.FragmentTextPath | main.py:105 | a fragment's text is read exactly when its text.content is a string, and then it is that string |
| Recipients.JoinedTextOk | main.py:104-105 | the fragments are concatenated without error exactly when every fragment is well formed |
| Recipients.JoinFragments | main.py:103-105 | the `+=` loop over the fragments computes the joined text, or the exception of the first malformed fragment |
| Recipients.AddAddresses | main.py:108-112 | the loop over the split pieces adds exactly the addresses of the text to the set |
| Recipients.AddFieldAddresses | main.py:100-118 | handling one property adds exactly that property's addresses, or raises its exception |
| Recipients.AddPageAddresses | main.py:97-139 | handling one result adds exactly that page's To and CC addresses, or raises its exception |
| Recipients.RichTextAddresses | main.py:101-112 | with a truthy rich_text the property's addresses are those of the joined fragments, whatever email holds |
| Recipients.BlankRichTextShadowsEmail | main.py:101-118 | a truthy rich_text of only whitespace gives no address and email is not consulted |
| Recipients.EmailAddress | main.py:114-118 | with a falsy or missing rich_text and a string email, the property gives at most the one stripped email string, commas included |
| Recipients.FieldNeverRaises | main.py:100-118 | a well-formed address property never raises |
| Recipients.CollectedRaises | main.py:96-139 | reading the results raises exactly when reading one of the pages raises |
| Recipients.CollectedMembers | main.py:96-139 | when nothing raises, an address is collected for To (CC) exactly when some page contributes it to To (CC) |
| Recipients.ListOf | main.py:142-143 | `list(set)` holds each element of the set exactly once |
| Recipients.ResolveRecipients | main.py:93-159 | the fallback lists are returned exactly when reading raises or no address is found; otherwise each list holds every collected address once and only valid addresses, and one list may be empty |
| Recipients.NonBlank | main.py:20 | the comprehension keeps only non-empty, stripped pieces and never adds any |
| Recipients.NonBlankMembers | main.py:20 | a string is kept exactly when it is non-empty and some piece strips to it |
| Recipients.NonBlankAppend | main.py:20 | the comprehension keeps the order of the pieces: on two lists joined it gives the two results joined |
| Recipients.NonBlankKeeps | main.py:20 | on pieces that are already non-empty and stripped the comprehension is the identity |
| Recipients.FallbackList | main.py:20-21 | every fallback entry is non-empty with no surrounding whitespace |
| Recipients.FallbackMembers | main.py:20-21 | a fallback entry is exactly a non-empty string that some comma-separated piece of the setting strips to; an unset setting gives none |
| Recipients.FallbackExample | main.py:20-21 | "a@x.com, ,b@y.com " gives ["a@x.com", "b@y.com"] |
| Recipients.FallbackOfJoined | main.py:20-21 | parsing a comma-joined list of non-empty, stripped, comma-free entries gives that list back in order |
| Delivery.PriorityColour | main.py:494-501 | a badge colour is always one of red, orange and grey |
| Delivery.PriorityColours | main.py:496-500 | a non-empty priority is red exactly when it is "high" or "critical" ignoring case, orange exactly when it is "medium" ignoring case, and grey exactly otherwise |
| Delivery.PriorityBadge | main.py:495-501 | there is no badge exactly for a falsy priority, and only a truthy non-string priority makes the badge raise |
| Delivery.PriorityExamples | main.py:496-500 | "Critical" and "HIGH" are red, "Medium" orange, "Low" and " high" grey, "" has no badge |
| Delivery.StrippedAll | main.py:566-568 | the comprehension gives one entry per entry, none with surrounding whitespace, and leaves a list of already-stripped recipients unchanged |
| Delivery.SendList | main.py:546-568 | nothing is sent exactly when both lists are empty; otherwise the send list is the stripped To entries followed by the stripped CC entries, without cross-list deduplication |
| Delivery.ReplaceLeavesNone | main.py:400 | after the rewrite no backslash-n pair remains |
| Delivery.ReplaceLength | main.py:400 | the rewrite never shortens the text, and lengthens it whenever there was a pair to rewrite |
| Delivery.ReplaceKeeps | main.py:400 | a text without backslash-n pairs is left unchanged |
| Delivery.ReplaceAround | main.py:400 | a backslash-n pair becomes `<br>`, and the text before and after it is rewritten on its own |
| Delivery.SignatureHtml | main.py:399-402 | the signature never contains a backslash-n pair and is never shorter than the setting |
| Delivery.SignatureHtmlAround | main.py:399-402 | the signature of a setting with a backslash-n pair is the signature of the text before it, then `<br>`, then the signature of the text after it |
| Delivery.SignatureHtmlProperties | main.py:399-402 | the signature never contains a backslash-n pair, equals the setting exactly when the setting had none, and turns every backslash-n pair into `<br>` with both sides rewritten on their own |
| Delivery.SignatureOfPlainParts | main.py:400 | two parts without backslash-n pairs, joined by one pair, become the parts joined by `<br>` |
| Delivery.SignatureExample | main.py:400 | "Jo\nAcme" (a literal backslash-n) becomes "Jo<br>Acme" |

## Left out

- The Notion client and the three `databases.query` calls. These are network I/O and depend on the clock. The query results are a parameter of `Recipients.ResolveRecipients`, and the normalisers take one page each.
- SMTP login, MIME header assembly and `send_message`, which are library and network calls. `Delivery.SendList` stops at the list of addresses handed to the server.
- Reading signature files in `load_signature`, which is file I/O. Only the rewrite of the setting is modelled.
- Date parsing and formatting with `datetime.fromisoformat` and `strftime`. This is library behaviour and is not modelled; the raw date string is what the records carry.
- The HTML templating of `format_email_content`: presentation that depends on the clock.
- Logging and debug printing, the reads of the settings, and `main`.
- Recipients.ListOf: the order of `list(set)` is the interpreter's hash order. The model fixes no order; it states only that each element appears exactly once.
- Records.IdTag: a page id that is not a string is treated as a TypeError. Python would slice a list id and format it, or raise for other types. Notion ids are always strings.
- Numbers are integers. Floats only matter to the script through their truthiness, which an integer represents equally well.
- A dict with repeated keys is not something JSON decoding produces here. Lookup takes the first matching key.
- Text.Lower: only ASCII letters are lowered. For the three comparisons the script makes, with "high", "critical" and "medium", this agrees with Python's full `lower()`. The only non-ASCII characters whose lower-case forms are ASCII letters are the Kelvin sign, which lowers to 'k', and the dotted capital I, which lowers to two characters. Neither can complete one of these words.
- There is no tie-break between a dedicated title field and a type-tagged title field. A release title comes only from 'Event Name' (main.py:284), and a task title only from the scan for a property of type "title" (main.py:335-342).
