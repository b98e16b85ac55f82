# upedge site logic in Dafny

The upedge marketing site (a Next.js app for UpEdge Technologies) is almost all rendering.
A few components hold real logic, and this project models that logic and proves properties
of it:

- **Blueprint configurator** (`Blueprint.tsx`). It holds the four department package tables,
  the camera recommendation rule and the form-completeness check. It composes the enquiry
  message line by line, and builds the WhatsApp and e-mail links that carry the message
  percent-encoded.
- **Site-survey form** (`Contact.tsx`). The message is built from optional parts in a fixed
  order and joined with line feeds. It is sent over WhatsApp or by e-mail under a fixed
  subject.
- **Gallery lightbox** (`Gallery.tsx`). This covers the open image, cyclic previous/next,
  the arrow and Escape keys, and the "k / 12" counter.
- **Services category tabs** (`Services.tsx`). A click toggles the active category, the
  detail panel filters the list by the active id, and the image panel appears only for solar.
- **Active-section hook** (`useActiveSection.ts`). Among the intersecting sections it picks
  the one nearest the top. It drops section ids that have no element on the page, and it
  builds the observer's `rootMargin`.
- **Site constants** (`constants.ts`). The `wa.me` URL is built by stripping the non-digits
  from the WhatsApp number. The header height is also modelled.

Modules follow the source files:

- `Blueprint` with `BlueprintPackages` (the catalogue);
- `Contact`, `Gallery`, `Services`, `ActiveSection` and `SiteConstants`;
- `UriComponent`, which holds ECMAScript `encodeURIComponent`/`decodeURIComponent` over
  UTF-8 (section 19.2.6 of ECMA-262, percent-encoding as in section 2.1 of RFC 3986) and the
  global `replace` the e-mail link applies;
- `Text`, which holds `join`, ASCII `toUpperCase` and number printing;
- `Wrappers`, which holds `Option`.

Each component's `useState` fields become a class whose methods are the click handlers. Its
`ensures` clauses give the new state as a function of the old one. The message builders are
methods that append piece by piece, and each is proved equal to a function over a list of
message parts. That function's properties are then proved as lemmas.

## Model

| member | source | states |
|---|---|---|
| BlueprintPackages.DepartmentId | my-app/src/components/sections/Blueprint.tsx:29 | every department has a non-empty id |
| BlueprintPackages.Packages | my-app/src/components/sections/Blueprint.tsx:384-391 | every department has a table of exactly four packages; their ids are pairwise distinct; the third, and only the third, is marked recommended; every package lists at least one included item |
| BlueprintPackages.Find | my-app/src/components/sections/Blueprint.tsx:407 | a found package is in the table and has the id asked for; nothing is found exactly when no entry has that id |
| BlueprintPackages.FindDistinct | my-app/src/components/sections/Blueprint.tsx:407 | in a table with distinct ids, looking up the id of entry i gives entry i |
| BlueprintPackages.FindCurrentPackage | my-app/src/components/sections/Blueprint.tsx:676-679 | each package button of a department selects exactly the package it shows |
| BlueprintPackages.PackageIds | my-app/src/components/sections/Blueprint.tsx:676-679 | the four ids offered as buttons are the ids of the department's table, in order |
| BlueprintPackages.OfferedIffFound | my-app/src/components/sections/Blueprint.tsx:407-408 | an id is offered for a department exactly when the lookup in that department's table succeeds |
| Blueprint.SystemRecommendation | my-app/src/components/sections/Blueprint.tsx:393-404 | a recommendation is given only for security with a package selected, and it is one of the three camera strings |
| Blueprint.RecommendationInValidState | my-app/src/components/sections/Blueprint.tsx:393-404 | for security with a package, there is a recommendation exactly when cabling is wireless, or wired with a budget chosen. Wireless gives Wi-Fi cameras whatever the budget. Wired with "budget" gives analog cameras, and wired with balanced or premium gives IP cameras. No cabling gives none |
| Blueprint.UpperIdIsUpperCase | my-app/src/components/sections/Blueprint.tsx:410 | the heading's department word is the department id upper-cased |
| Blueprint.Render | my-app/src/components/sections/Blueprint.tsx:410-444 | every appended piece is non-empty, and every piece but the closing one ends with a line feed |
| Blueprint.IncludedLines | my-app/src/components/sections/Blueprint.tsx:420-422 | one item line per included item, position by position |
| Blueprint.InquiryEmptyIffNoPackage | my-app/src/components/sections/Blueprint.tsx:407-408 | the message is empty exactly when the selected id is not in the current department's table |
| Blueprint.MessageNotEmpty | my-app/src/components/sections/Blueprint.tsx:410-444 | with a package found, the message is never empty |
| Blueprint.LinesStart | my-app/src/components/sections/Blueprint.tsx:410-411 | the first two lines are the department heading and the package line |
| Blueprint.InquiryStarts | my-app/src/components/sections/Blueprint.tsx:410-411 | the text starts with `*` + upper-cased department + ` SYSTEM INQUIRY*`, two line feeds, then `*Package:* <name>` and a line feed |
| Blueprint.InquiryEnds | my-app/src/components/sections/Blueprint.tsx:444 | the text ends with `\n_Please confirm site survey / next steps._` |
| Blueprint.HeadLinesShape | my-app/src/components/sections/Blueprint.tsx:410-419 | the lines before the items are the heading, the package, the space line when not digital (with "Not specified" for empty values), the location when set, and the "What's Included" heading; none of them is an item or a preference |
| Blueprint.IncludedLinesAreItems | my-app/src/components/sections/Blueprint.tsx:420-422 | the item block holds item lines only |
| Blueprint.DepartmentLinesOwned | my-app/src/components/sections/Blueprint.tsx:424-442 | every preference line in the department block belongs to the selected department |
| Blueprint.SecurityLinesContent | my-app/src/components/sections/Blueprint.tsx:424-429 | budget-focus and cabling lines appear exactly for security, when the value is non-empty, with the chosen value; the recommended line appears exactly when there is a recommendation |
| Blueprint.OtherLinesContent | my-app/src/components/sections/Blueprint.tsx:431-442 | backup-need, coverage-need, business-type and main-goal lines appear exactly for their own department, when non-empty, with the chosen value |
| Blueprint.PreferenceLinesInBlock | my-app/src/components/sections/Blueprint.tsx:424-442 | a preference line is in the whole message exactly when it is in the department block, and every preference line in the message belongs to the selected department |
| Blueprint.IncludesInOrder | my-app/src/components/sections/Blueprint.tsx:419-422 | right after the "What's Included" heading come the package's items, one line each, in table order |
| Blueprint.IncludesNowhereElse | my-app/src/components/sections/Blueprint.tsx:420-422 | no line outside that block is an item line, so the items appear there and nowhere else |
| Blueprint.SpaceLineIffNotDigital | my-app/src/components/sections/Blueprint.tsx:414-416 | a space line is present exactly when the department is not digital, and it shows space and size with "Not specified" for an empty value |
| Blueprint.DigitalIgnoresSpace | my-app/src/components/sections/Blueprint.tsx:413-416 | for digital, neither the message nor form completeness depends on the space or size |
| Blueprint.IsFormComplete | my-app/src/components/sections/Blueprint.tsx:460-467 | digital is complete exactly when business type, main goal and package are chosen; the other departments need space, size and package. Partner lemmas: CompleteFormFindsPackage (a complete reachable form finds its package, so the message is non-empty) and DigitalIgnoresSpace (digital completeness does not depend on space or size) |
| Blueprint.Lines | my-app/src/components/sections/Blueprint.tsx:406-446 | the enquiry as its list of lines: head lines, one line per item, the department block, the closing line. Its shape is proved by LinesStart, HeadLinesShape, IncludesInOrder, IncludesNowhereElse, PreferenceLinesInBlock and SpaceLineIffNotDigital |
| Blueprint.MessageFor | my-app/src/components/sections/Blueprint.tsx:410-444 | the enquiry text for a found package. Partner lemmas: MessageNotEmpty, InquiryStarts and InquiryEnds; ComposeMessage builds it by `+=` and `forEach` |
| Blueprint.InquiryText | my-app/src/components/sections/Blueprint.tsx:406-446 | the text before encoding, "" when the package is not found. Partner lemma: InquiryEmptyIffNoPackage; GenerateWhatsAppMessage returns its encoding |
| Blueprint.EmailSubject | my-app/src/components/sections/Blueprint.tsx:455 | upper-cased department, " System Inquiry - " and the package name, with "undefined" when no package is found. Partner lemma: CompleteFormFindsPackage shows the subject names the package whenever the send buttons are shown |
| Blueprint.WhatsAppLinkAsWritten | my-app/src/components/sections/Blueprint.tsx:450 | the link as the source builds it, with the raw number. Partner lemmas: AsWrittenLinkKeepsPlus (the path starts with "+") and WhatsAppLinkCorrected (it is the corrected link with "+" inserted) |
| Blueprint.EmailLink | my-app/src/components/sections/Blueprint.tsx:453-457 | rewriting every `%0A` of the encoded message to `%0D%0A` yields the encoding of the message with CR LF line ends |
| Blueprint.EmailBodyDecodes | my-app/src/components/sections/Blueprint.tsx:456-457 | the e-mail link is the mailto prefix with the encoded subject, followed by a body that decodes to the message with CR LF line ends |
| Blueprint.AsWrittenLinkKeepsPlus | my-app/src/components/sections/Blueprint.tsx:450 | the WhatsApp link as written has "+" (not a digit) as the first character of the `wa.me` path |
| Blueprint.WhatsAppLink | my-app/src/components/sections/Blueprint.tsx:450 | the corrected link is `https://wa.me/`, twelve digits, then `?text=` and the encoded message |
| Blueprint.WhatsAppLinkCorrected | my-app/src/components/sections/Blueprint.tsx:450 | the link as written is the corrected link with a "+" inserted before the number; the corrected link's text parameter decodes to the message |
| Blueprint.CompleteFormFindsPackage | my-app/src/components/sections/Blueprint.tsx:460-467 | in any reachable state with the form complete (the only time the send buttons show), the package is found, the message is non-empty and the e-mail subject names the package |
| Blueprint.IdsBelongToOneDepartment | my-app/src/components/sections/Blueprint.tsx:516-519 | no package id of one department is offered in another, which is why switching department clears the package |
| Blueprint.ComposeMessage | my-app/src/components/sections/Blueprint.tsx:410-444 | the `+=` sequence with the `forEach` over the items produces exactly the rendered list of message lines |
| Blueprint.HeadText | my-app/src/components/sections/Blueprint.tsx:410-419 | the appends up to "What's Included" produce the rendered head lines |
| Blueprint.PlaceText | my-app/src/components/sections/Blueprint.tsx:414-418 | the conditional space and location appends produce the space line when not digital and the location line when set |
| Blueprint.PreferenceText | my-app/src/components/sections/Blueprint.tsx:424-442 | the department-specific appends produce the rendered department block |
| Blueprint.SecurityText | my-app/src/components/sections/Blueprint.tsx:424-429 | the security appends produce budget focus, cabling and recommendation, each only when present |
| Blueprint.DigitalText | my-app/src/components/sections/Blueprint.tsx:439-442 | the digital appends produce business type and main goal, each only when chosen |
| Blueprint.Configurator.constructor | my-app/src/components/sections/Blueprint.tsx:363-375 | the initial state is security with nothing chosen, which is a reachable state |
| Blueprint.Configurator.SelectDepartment | my-app/src/components/sections/Blueprint.tsx:516-519 | sets the department, clears the package, leaves every other field unchanged and keeps the state reachable |
| Blueprint.Configurator.SelectPackage | my-app/src/components/sections/Blueprint.tsx:679 | sets only the package, and the lookup then finds exactly that package |
| Blueprint.Configurator.ChooseSpaceType | my-app/src/components/sections/Blueprint.tsx:619-622 | sets only the space type, to a button value |
| Blueprint.Configurator.ChooseSize | my-app/src/components/sections/Blueprint.tsx:642-645 | sets only the size, to a button value |
| Blueprint.Configurator.ChooseBudgetFocus | my-app/src/components/sections/Blueprint.tsx:708-715 | sets only the budget focus, to a button value |
| Blueprint.Configurator.ChooseCabling | my-app/src/components/sections/Blueprint.tsx:733-739 | sets only the cabling preference, to a button value |
| Blueprint.Configurator.ChooseBackupNeed | my-app/src/components/sections/Blueprint.tsx:762-769 | sets only the backup need, to a button value |
| Blueprint.Configurator.ChooseCoverageNeed | my-app/src/components/sections/Blueprint.tsx:790-797 | sets only the coverage need, to a button value |
| Blueprint.Configurator.ChooseBusinessType | my-app/src/components/sections/Blueprint.tsx:557-560 | sets only the business type, to a button value |
| Blueprint.Configurator.ChooseMainGoal | my-app/src/components/sections/Blueprint.tsx:580-587 | sets only the main goal, to a button value |
| Blueprint.Configurator.GenerateWhatsAppMessage | my-app/src/components/sections/Blueprint.tsx:406-446 | returns "" when the package is not found, and otherwise the percent-encoded enquiry; either way the result decodes back to the enquiry |
| UriComponent.Utf8 | my-app/src/components/sections/Blueprint.tsx:445 | a character encodes to 1-4 octets; it is one octet (its own code) exactly for ASCII, and the octets after the first are continuation octets |
| UriComponent.Utf8Decodes | my-app/src/components/sections/Blueprint.tsx:445 | the lead octet announces the sequence length, and the continuation octets fold back to the code point, which is well formed for that length |
| UriComponent.EncodeURIComponent | my-app/src/components/sections/Blueprint.tsx:445 | the encoding holds only unreserved characters, `%` and upper-case hex digits |
| UriComponent.EncodeAppend | my-app/src/components/sections/Blueprint.tsx:445 | encoding works piece by piece: encoding a + b gives the encoding of a followed by the encoding of b |
| UriComponent.EncodedIsQuerySafe | my-app/src/components/sections/Blueprint.tsx:445 | an encoded string holds no line feed, carriage return, space, `&`, `#`, `=` or `?` |
| UriComponent.DecodeEncode | my-app/src/components/sections/Blueprint.tsx:445 | decoding the encoding of any string gives the string back |
| UriComponent.EncodeInjective | my-app/src/components/sections/Blueprint.tsx:445 | different strings have different encodings |
| UriComponent.CrLfEscapes | my-app/src/components/sections/Blueprint.tsx:456 | globally replacing `%0A` by `%0D%0A` in an encoding equals encoding the text with every line feed turned into CR LF |
| UriComponent.CrLfBodyDecodes | my-app/src/components/sections/Blueprint.tsx:456 | the rewritten e-mail body decodes to the message with CR LF line ends |
| Text.ToUpperAscii | my-app/src/components/sections/Blueprint.tsx:410 | same length; no lower-case ASCII letter is left; other characters are unchanged; each lower-case letter moves 32 code points down |
| Text.JoinSnoc | my-app/src/components/sections/Contact.tsx:83 | joining after one more push appends the separator and that part |
| Text.NatToStringValue | my-app/src/hooks/useActiveSection.ts:12 | printing a number in decimal and reading the digits back gives the number |
| Contact.Parts | my-app/src/components/sections/Contact.tsx:73-81 | the parts pushed, in push order. Partner lemmas: PartsInOrder, GreetingFirstClosingLast and PartsPresentIffSet |
| Contact.Message | my-app/src/components/sections/Contact.tsx:73-84 | the parts joined with line feeds. Partner lemmas: MessageStartsWithGreeting, MessageEndsWithClosing and BlankMessage; ComposeMessage builds it by `push` and `join` |
| Contact.WhatsAppLink | my-app/src/components/sections/Contact.tsx:86-89 | `WHATSAPP_URL?text=` followed by the encoded message. Partner lemma: WhatsAppLinkCarriesMessage (the parameter is query-safe and decodes to the message) |
| Contact.EmailLink | my-app/src/components/sections/Contact.tsx:91-98 | the mailto link with the fixed subject and the message as body, both encoded. Partner lemmas: EmailLinkCarriesMessage and SubjectDecodes |
| Contact.PartsInOrder | my-app/src/components/sections/Contact.tsx:76-79 | the parts are strictly ordered greeting, space, location, time, note, closing, each kind at most once |
| Contact.GreetingFirstClosingLast | my-app/src/components/sections/Contact.tsx:74-81 | the greeting is always the first part and the closing always the last |
| Contact.PartsPresentIffSet | my-app/src/components/sections/Contact.tsx:76-79 | each optional line is present exactly when its field is set and non-empty, and shows that field's value; greeting and closing are always present |
| Contact.MessageStartsWithGreeting | my-app/src/components/sections/Contact.tsx:74 | the message starts with "Hi! I'd like to request a site survey." and a line feed |
| Contact.MessageEndsWithClosing | my-app/src/components/sections/Contact.tsx:81-83 | the message ends with a line feed followed by "\nPlease suggest a recommended setup and survey time." |
| Contact.MessageBeforeClosing | my-app/src/components/sections/Contact.tsx:81-83 | the message is the joined parts before the closing, then the joining line feed and the closing part |
| Contact.BlankMessage | my-app/src/components/sections/Contact.tsx:73-84 | with nothing set, the message is the greeting, a line feed and the closing part |
| Contact.ComposeMessage | my-app/src/components/sections/Contact.tsx:73-84 | the pushes onto `parts` followed by `join("\n")` produce exactly the message function |
| Contact.PushSpaceAndLocation | my-app/src/components/sections/Contact.tsx:76-77 | the space push happens when a space is chosen and the location push when one is typed, in that order |
| Contact.PushTimeAndNote | my-app/src/components/sections/Contact.tsx:78-79 | the time push happens when a time is chosen and the note push when one is typed, in that order |
| Contact.WhatsAppLinkCarriesMessage | my-app/src/components/sections/Contact.tsx:86-89 | the link is `WHATSAPP_URL?text=` followed by a parameter with no `&`, `#` or line feed that decodes to the message |
| Contact.MailToCarriesBody | my-app/src/components/sections/Contact.tsx:95 | a mailto link ends with `&body=` and the encoded body, which decodes to the body |
| Contact.EmailLinkCarriesMessage | my-app/src/components/sections/Contact.tsx:91-98 | the e-mail and WhatsApp links end with the same encoded message, the e-mail's as its body parameter, and it decodes to the message |
| Contact.SubjectDecodes | my-app/src/components/sections/Contact.tsx:93 | the subject parameter decodes to "Site Survey Request - Upedge Technologies" |
| Contact.SurveyForm.constructor | my-app/src/components/sections/Contact.tsx:68-71 | the form starts with no space, no time and empty location and note |
| Contact.SurveyForm.ChooseSpace | my-app/src/components/sections/Contact.tsx:290 | sets only the space, and a chosen space is always one of the four fixed values |
| Contact.SurveyForm.SetLocation | my-app/src/components/sections/Contact.tsx:313 | sets only the location |
| Contact.SurveyForm.ChooseTime | my-app/src/components/sections/Contact.tsx:331 | sets only the time, and a chosen time is always one of the three fixed values |
| Contact.SurveyForm.SetNote | my-app/src/components/sections/Contact.tsx:353 | sets only the note |
| Contact.SurveyForm.GenerateMessage | my-app/src/components/sections/Contact.tsx:73-84 | the message built from the form's current fields |
| Gallery.FindIndex | my-app/src/components/sections/Gallery.tsx:31 | the result is -1 exactly when the id is absent; otherwise it is the first position holding the id |
| Gallery.FindIndexOfDistinct | my-app/src/components/sections/Gallery.tsx:31 | in a list without repeats, the index of the id at position i is i |
| Gallery.Previous | my-app/src/components/sections/Gallery.tsx:29-34 | from a closed lightbox nothing opens; from an open one the result is again an image of the list |
| Gallery.Next | my-app/src/components/sections/Gallery.tsx:36-41 | from a closed lightbox nothing opens; from an open one the result is an image of the list, and an id missing from the list moves to the first image |
| Gallery.KeyDown | my-app/src/components/sections/Gallery.tsx:43-48 | any key keeps the selection closed or on an image of the list |
| Gallery.Counter | my-app/src/components/sections/Gallery.tsx:208-209 | the counter is between 1 and the number of images; it names the open image's position, counted from 1, and no earlier position holds that image |
| Gallery.ImageIdsDistinct | my-app/src/components/sections/Gallery.tsx:10-23 | the gallery has twelve images with distinct ids |
| Gallery.Pred | my-app/src/components/sections/Gallery.tsx:32 | the position before i is on the circle, and its successor is i |
| Gallery.NextIsSuccessor | my-app/src/components/sections/Gallery.tsx:38-40 | next moves one place forward round the circle of images |
| Gallery.PreviousIsPredecessor | my-app/src/components/sections/Gallery.tsx:31-33 | previous moves one place back round the circle of images |
| Gallery.EndsWrapAround | my-app/src/components/sections/Gallery.tsx:32-39 | next from image 12 opens image 1, and previous from image 1 opens image 12 |
| Gallery.NextPreviousRoundTrip | my-app/src/components/sections/Gallery.tsx:29-41 | previous undoes next and next undoes previous, from any reachable selection, closed included |
| Gallery.AdvanceAdd | my-app/src/components/sections/Gallery.tsx:39 | stepping a + b times is stepping a times and then b times |
| Gallery.AdvanceNoWrap | my-app/src/components/sections/Gallery.tsx:39 | before the end of the circle, k steps from i reach i + k |
| Gallery.AdvanceRound | my-app/src/components/sections/Gallery.tsx:39 | n - i steps from i reach the start, and n steps come back to i |
| Gallery.NextTimesAdvances | my-app/src/components/sections/Gallery.tsx:36-41 | k presses of next from image i land k places further round the circle |
| Gallery.NextGoesRound | my-app/src/components/sections/Gallery.tsx:36-41 | as many presses of next as there are images return to the starting image |
| Gallery.NextReachesLater | my-app/src/components/sections/Gallery.tsx:36-41 | k presses that stay before the end move from image i to image i + k |
| Gallery.NextReachesEarlier | my-app/src/components/sections/Gallery.tsx:36-41 | pressing past the last image wraps round, so every earlier image is reached too |
| Gallery.KeyDownCases | my-app/src/components/sections/Gallery.tsx:43-48 | with the lightbox closed no key does anything; Escape closes; ArrowLeft is previous; ArrowRight is next; any other key changes nothing |
| Gallery.CounterFollowsNext | my-app/src/components/sections/Gallery.tsx:208-209 | after next, the counter goes one up, or back to 1 after the last image |
| Gallery.Lightbox.constructor | my-app/src/components/sections/Gallery.tsx:26 | the lightbox starts closed |
| Gallery.Lightbox.Open | my-app/src/components/sections/Gallery.tsx:92 | clicking a grid image opens that image |
| Gallery.Lightbox.Close | my-app/src/components/sections/Gallery.tsx:139-148 | the backdrop and the close button close the lightbox |
| Gallery.Lightbox.HandlePrevious | my-app/src/components/sections/Gallery.tsx:29-34 | the new selection is Previous of the old one, and the selection stays closed or on an image of the gallery |
| Gallery.Lightbox.HandleNext | my-app/src/components/sections/Gallery.tsx:36-41 | the new selection is Next of the old one, and the selection stays closed or on an image of the gallery |
| Gallery.Lightbox.HandleKeyDown | my-app/src/components/sections/Gallery.tsx:43-48 | the new selection is KeyDown of the old one and the key, and the selection stays closed or on an image of the gallery |
| Services.CategoryIdsUnique | my-app/src/components/sections/Services.tsx:26-105 | the six category ids are pairwise distinct |
| Services.Toggle | my-app/src/components/sections/Services.tsx:170 | nothing is active after the click exactly when the clicked category was the active one; otherwise the clicked category is the only active one |
| Services.ToggleTwice | my-app/src/components/sections/Services.tsx:170 | two clicks on one tab leave nothing active exactly when that tab was not active before; from the active tab two clicks restore it |
| Services.FilterById | my-app/src/components/sections/Services.tsx:202-203 | the filter keeps exactly the categories with that id, and nothing else |
| Services.FilterUnique | my-app/src/components/sections/Services.tsx:202-203 | with unique ids, filtering by a present id yields that one category, and by an absent id yields nothing |
| Services.Panel | my-app/src/components/sections/Services.tsx:188-203 | with no active category the panel is empty |
| Services.PanelHoldsActiveCategory | my-app/src/components/sections/Services.tsx:202-203 | the panel holds exactly the category whose id is active, or nothing when no category has that id |
| Services.ClickShowsCategory | my-app/src/components/sections/Services.tsx:170-203 | clicking an inactive tab shows that category alone, and clicking the active tab empties the panel |
| Services.OnlySolarHasImage | my-app/src/components/sections/Services.tsx:95 | solar is the only category with an image |
| Services.ImagePanelIffSolar | my-app/src/components/sections/Services.tsx:206-235 | the image panel is shown exactly when solar is the active category |
| Services.CategoryTabs.constructor | my-app/src/components/sections/Services.tsx:109 | initially no category is active |
| Services.CategoryTabs.Click | my-app/src/components/sections/Services.tsx:170 | the new active category is the toggle of the old one, and it is still one of the categories |
| ActiveSection.Visible | my-app/src/hooks/useActiveSection.ts:18-19 | the filter never lengthens the batch |
| ActiveSection.VisibleMembers | my-app/src/hooks/useActiveSection.ts:18-19 | the entries kept are exactly the intersecting ones |
| ActiveSection.Insert | my-app/src/hooks/useActiveSection.ts:20-22 | inserting adds exactly the one entry to the multiset |
| ActiveSection.SortByTop | my-app/src/hooks/useActiveSection.ts:20-22 | the sort is a permutation of its input |
| ActiveSection.SortAscending | my-app/src/hooks/useActiveSection.ts:20-22 | the sorted entries are ascending by top |
| ActiveSection.FirstTopmost | my-app/src/hooks/useActiveSection.ts:16-26 | the reference pick, defined without sorting: none exactly when nothing intersects; otherwise an intersecting entry whose top is minimal, with every earlier intersecting entry strictly lower on the page |
| ActiveSection.SortedHeadIsFirstTopmost | my-app/src/hooks/useActiveSection.ts:18-22 | the head of the sorted intersecting entries is the entry the reference pick names, so ties go to the earlier entry as a stable sort gives |
| ActiveSection.OnEntries | my-app/src/hooks/useActiveSection.ts:16-26 | the section after one observer callback. Partner lemmas: OnEntriesChoosesTopmost (it is the reference pick FirstTopmost, or unchanged when nothing intersects) and OnEntriesPicksIntersecting |
| ActiveSection.Initial | my-app/src/hooks/useActiveSection.ts:35-44 | the section after the effect's initial step. Partner lemmas: InitialIsFirstPresent (the first listed id present on the page when none was chosen) and NavSectionsOnPage ("home" on the home page) |
| ActiveSection.OnEntriesChoosesTopmost | my-app/src/hooks/useActiveSection.ts:16-26 | the callback sets the id of the reference pick, and leaves the section unchanged when nothing intersects |
| ActiveSection.OnEntriesPicksIntersecting | my-app/src/hooks/useActiveSection.ts:18-25 | the new section is the old one or the id of an intersecting entry, never a non-intersecting one |
| ActiveSection.Existing | my-app/src/hooks/useActiveSection.ts:35-37 | the filter never lengthens the id list |
| ActiveSection.ExistingMembers | my-app/src/hooks/useActiveSection.ts:35-37 | the ids kept are exactly the listed ids that have an element |
| ActiveSection.ExistingAppend | my-app/src/hooks/useActiveSection.ts:35-37 | the filter works piece by piece, so the kept ids stay in their order |
| ActiveSection.ExistingAllPresent | my-app/src/hooks/useActiveSection.ts:35-37 | a list whose ids all have elements is kept whole |
| ActiveSection.ExistingHead | my-app/src/hooks/useActiveSection.ts:35-43 | the first kept id is the first listed id with an element |
| ActiveSection.InitialIsFirstPresent | my-app/src/hooks/useActiveSection.ts:42-44 | an already chosen section stays; with none chosen and some section present, the choice is the first listed id present on the page; with none present, nothing changes |
| ActiveSection.RootMargin | my-app/src/hooks/useActiveSection.ts:12 | the `rootMargin` string for a header height. Partner lemmas: RootMarginTopOffset (its top offset reads back as the height plus 20) and SiteRootMargin |
| ActiveSection.RootMarginTopOffset | my-app/src/hooks/useActiveSection.ts:12 | the margin is "-", the decimal digits of header height + 20, then "px 0px -60% 0px" |
| ActiveSection.SiteRootMargin | my-app/src/hooks/useActiveSection.ts:12 | with the 72-pixel header the margin is "-92px 0px -60% 0px" |
| ActiveSection.HomePageLacksProjects | my-app/src/app/page.tsx:12-46 | the home page renders every navigation section except "projects" |
| ActiveSection.ExistingDropsOne | my-app/src/hooks/useActiveSection.ts:35-37 | when exactly one id lacks an element, the filter drops that id and keeps the rest in order |
| ActiveSection.NavIdsAroundProjects | my-app/src/lib/nav.ts:1-11 | the navigation ids are the five before "projects", "projects", and the three after |
| ActiveSection.NavSectionsOnPage | my-app/src/lib/nav.ts:1-11 | on a page lacking only "projects", the header observes the other eight sections in order, and the initial section is "home" |
| ActiveSection.SectionTracker.constructor | my-app/src/hooks/useActiveSection.ts:7 | no section is active at first |
| ActiveSection.SectionTracker.SetInitial | my-app/src/hooks/useActiveSection.ts:35-44 | the filter over the ids and the first-present default leave the section the initial-choice function gives |
| ActiveSection.SectionTracker.Observe | my-app/src/hooks/useActiveSection.ts:16-26 | the filter, sort and pick-first leave the section the callback function gives |
| SiteConstants.StripLeavesDigits | my-app/src/lib/constants.ts:14 | stripping leaves only digits and never lengthens the string |
| SiteConstants.StripDistributes | my-app/src/lib/constants.ts:14 | stripping a + b gives stripped a followed by stripped b, so digits keep their order |
| SiteConstants.StripAt | my-app/src/lib/constants.ts:14 | a digit is kept where it stands, between the digits before and after it, and any other character is dropped |
| SiteConstants.StripKeepsDigitStrings | my-app/src/lib/constants.ts:14 | a string of digits only is left unchanged |
| SiteConstants.StripIdempotent | my-app/src/lib/constants.ts:14 | stripping twice is stripping once |
| SiteConstants.WaMeUrlDigitsOnly | my-app/src/lib/constants.ts:14 | the number part of a `wa.me` URL contains only 0-9, whatever number it was built from |
| SiteConstants.WaMeUrlOfPlusDigits | my-app/src/lib/constants.ts:14 | for "+" followed by digits, the URL path is the digits |
| SiteConstants.WhatsAppUrlStripsNumber | my-app/src/lib/constants.ts:13-14 | the number is "+" and digits, and the URL is `https://wa.me/` followed by those digits |
| SiteConstants.WhatsAppUrlIsWaMeUrl | my-app/src/lib/constants.ts:13-14 | `WHATSAPP_URL` is `https://wa.me/923120518266`, the digit-stripped URL of "+923120518266" |

## Left out

- Rendering is not modelled: JSX, Tailwind classes, framer-motion animation and the `useReducedMotion` branches are presentational only.
- Navigation calls are not modelled: `window.open` and `window.location.href` are external side effects. Only the link strings handed to them are modelled.
- Browser plumbing is not modelled:
  - the `IntersectionObserver` construction, `observe`/`unobserve` and cleanup, and the `threshold` option;
  - the `keydown` listener registration in `Gallery.tsx`, which registers on every render.
  
  Event delivery is replaced by direct method calls.
- ActiveSection.SectionTracker.Observe takes entry tops as integers (the `top` field of `Entry`). The source's `boundingClientRect.top` is a floating-point number, and the sort comparator subtracts two of them.
- ActiveSection.Existing stands for `document.getElementById` by membership in a set of ids that are on the page. Which elements the page holds is a parameter.
- Rendering-only state and presentation data are not modelled:
  - the Services mobile accordion, which has its own open state inside the UI library;
  - Services bullet lists, icons and colours;
  - gallery `src`/`alt` fields;
  - package `icon`, `shortDesc`, `customerFeeling` and `bestFor` presentation fields.

  None of them affects the logic above.
- Scroll-to-contact handlers are not modelled. They are DOM geometry and smooth scrolling.
- Other components are not part of this model: Faq, DigitalSolutions, Hero, Header, the sliders and the static content sections.
- Text.ToUpperAscii: only ASCII case mapping is modelled, not full Unicode `toUpperCase`. It is applied only to the four lower-case department ids.
- Gallery.Previous: requires the selection to be one of the image ids. For an id missing from the list, the source's `findIndex` gives -1 and the code would read position -2. That state cannot be reached, because every setter stores an id taken from the list.
- Gallery.FindIndex: searches the list of ids rather than the image objects. Only `id` is compared.
- Blueprint.Configurator.ChooseSpaceType and the other `Choose…` setters require a value from the button's option list, since the buttons are their only callers. Likewise Contact.SurveyForm.ChooseSpace and ChooseTime. The setters do not require the guards under which the source renders their buttons. Space and size buttons show only for the physical departments, and business-type and goal buttons only for digital (Blueprint.tsx:549-610). Each department's preference buttons show only for that department once a space and a size are chosen (Blueprint.tsx:697, 756, 784). The model therefore over-approximates the reachable states, and every property proved over it also holds for the states the page can reach.
- Blueprint.ValidSelection keeps `location` empty. The component declares a location setter but never calls it, so the location line is modelled but unreachable.
- Services.ToggleTwice: clicking the same category twice ends with nothing active only when that category was not active before. From the active category, two clicks re-activate it, and ToggleTwice states both cases.
- UriComponent.DecodeURIComponent works over Dafny characters, which are Unicode scalar values. Unpaired UTF-16 surrogates, for which `encodeURIComponent` throws, cannot be represented.

## Findings

| source | as written | input that shows it | evidently intended | confidence | as-written member | corrected member |
|---|---|---|---|---|---|---|
| my-app/src/components/sections/Blueprint.tsx:450 | the WhatsApp link puts the raw `WHATSAPP_NUMBER`, "+" included, into the `wa.me` path: `https://wa.me/+923120518266?text=…` | any complete configurator form: the path's first character is "+" | use `WHATSAPP_URL` (digits only, `https://wa.me/923120518266`), as Contact.tsx does | not executed | Blueprint.AsWrittenLinkKeepsPlus | Blueprint.WhatsAppLinkCorrected |
