# File manager and sign-in page: a verified model

This project models the local logic of a small React file-manager dashboard. The hosted storage and identity service does all the real work; around its calls the app does some deterministic bookkeeping, and that bookkeeping is what is modelled here:

- **`useFiles` hook.** The extension-to-MIME lookup, the transform from raw storage listing entries to `FileItem` records, and the hook's state (module `Files`). That state is the file list, the `loading` and `uploading` flags, and the per-file upload progress table, which the sequential upload loop updates one entry at a time.
- **File manager screen.** The search filter over the listed files, the heading and found-count line, and the choice between spinner, empty state and cards (module `Search`).
- **File icon.** The ordered first-match rule chain from a MIME type to an icon category (module `FileIcon`), and the icon that each type in the lookup table gets (modules `MimeWords` and `TypeIcons`).
- **Sign-in page.** The username proposed from an e-mail address, the guard that decides when the proposal may overwrite the username, the phone pattern and the three validators (module `AuthRules`). Also the page as a state machine over its views and the `otpSent` flag (module `AuthForm`).

The service's answers are parameters of the operations that wait for them: listing, upload and remove results, sign-in, OTP, reset and OAuth outcomes. `Date.now()` and `Math.random()` are parameters too. The e-mail schema check of the validation library is the boolean parameter `emailOk`.

Module layout:

| file | module | source |
|---|---|---|
| `common.dfy` | `Common` | `Option` and order-preserving sub-lists |
| `text.dfy` | `Text` | ASCII lower-casing, `String.prototype.trim`, `includes`/`startsWith`, decimal numerals |
| `file_types.dfy` | `FileTypes` | `src/types/file.ts` |
| `files.dfy` | `Files` | `src/hooks/useFiles.ts` |
| `search.dfy` | `Search` | `src/components/FileManager.tsx` |
| `file_icon.dfy` | `FileIcon` | `src/components/FileIcon.tsx` |
| `mime_words.dfy`, `type_icons.dfy` | `MimeWords`, `TypeIcons` | `getFileType` types classified by `getIconConfig` |
| `auth_rules.dfy` | `AuthRules` | pure functions of `src/pages/Auth.tsx` |
| `auth_form.dfy` | `AuthForm` | the state and handlers of `src/pages/Auth.tsx` |

## Model

| member | source | states |
|---|---|---|
| Text.ToLower | src/components/FileManager.tsx:31-32 | lower-casing keeps the length and maps each character on its own: `A`-`Z` to `a`-`z`, everything else unchanged |
| Text.ToLowerIdempotent | src/components/FileManager.tsx:31-32 | lower-casing twice is lower-casing once |
| Text.TrimStart | src/components/FileManager.tsx:30 | the result is a suffix of the input; everything dropped is white space; the result does not start with white space |
| Text.TrimEnd | src/components/FileManager.tsx:30 | the result is a prefix of the input; everything dropped is white space; the result does not end with white space |
| Text.Trim | src/components/FileManager.tsx:30 | `trim()`: both ends trimmed; its emptiness is stated by `Text.TrimEmptyIffBlank` |
| Text.TrimEmptyIffBlank | src/components/FileManager.tsx:30 | `trim()` gives the empty string exactly when every character is white space |
| Text.TrimStartEmptyIff | src/components/FileManager.tsx:30 | trimming the front leaves nothing exactly when the string is blank |
| Text.TrimEndEmptyIff | src/components/FileManager.tsx:30 | trimming the back leaves nothing exactly when the string is blank |
| Text.ContainsAcross | src/components/FileIcon.tsx:37-51 | a word without the separator character occurs in `a + sep + b` exactly when it occurs in `a` or in `b` |
| Text.MissingChar | src/components/FileIcon.tsx:37-51 | a word with a character that the text lacks does not occur in it |
| Text.Decimal | src/pages/Auth.tsx:37-39 | the numeral of `n` is one or more digits, and one digit exactly when `n < 10` |
| Text.DecimalRoundTrip | src/components/FileManager.tsx:70 | reading the numeral of `n` back gives `n`, and a numeral of more than one digit has no leading zero |
| Text.DecimalBelowThousand | src/pages/Auth.tsx:37 | a suffix below 1000 has one to three digits |
| Files.LastSegment | src/hooks/useFiles.ts:164 | `split('.').pop()` is a suffix of the name with no `.` in it, preceded by a `.` unless it is the whole name |
| Files.Extension | src/hooks/useFiles.ts:164 | the lower-cased last segment; its lookup is stated by `Files.TableKeyAfterDot`, `Files.UnknownExtension` and `Files.WholeNameLookup` |
| Files.GetFileType | src/hooks/useFiles.ts:163-190 | the type is always a table value or `application/octet-stream`, never empty |
| Files.LastSegmentAfterDot | src/hooks/useFiles.ts:164 | for any stem, the last segment of `stem.ext` is `ext` when `ext` has no `.` |
| Files.LastSegmentNoDot | src/hooks/useFiles.ts:164 | a name without a `.` is its own last segment |
| Files.TableKeyAfterDot | src/hooks/useFiles.ts:164-188 | for any stem and any spelling of a table key after the last `.`, the type is that key's table value |
| Files.UnknownExtension | src/hooks/useFiles.ts:164-189 | an extension not in the table, the empty one included, gives `application/octet-stream` |
| Files.WholeNameLookup | src/hooks/useFiles.ts:164-189 | a name without a `.` is looked up whole, lower-cased |
| Files.JpegKeys | src/hooks/useFiles.ts:166-167 | `jpg` and `jpeg` both map to `image/jpeg` |
| Files.AbsentKeys | src/hooks/useFiles.ts:165-188 | `gz`, the empty string and `constructor` are not table keys |
| Files.UpperCaseExample | src/hooks/useFiles.ts:164-167 | `Photo.JPG` is `image/jpeg`, and so is `pdf.b.jpeg`: only the last segment is looked up, in any case, even when an earlier one is a table key |
| Files.BareKeyExample | src/hooks/useFiles.ts:164-172 | a file named `pdf` is `application/pdf` |
| Files.UnknownExamples | src/hooks/useFiles.ts:164-189 | `archive.tar.gz` and `notes.` get `application/octet-stream` |
| Files.GetFileTypeAsWritten | src/hooks/useFiles.ts:189 | the lookup on a plain object: the same as `GetFileType` for every extension except the inherited property names |
| Files.InheritedKeyCounterexample | src/hooks/useFiles.ts:164-189 | `notes.Constructor` gets a non-string type as written, where the fallback was intended |
| Files.EntrySize | src/hooks/useFiles.ts:29 | the metadata size, or 0 when the metadata or its size is missing |
| Files.EntryType | src/hooks/useFiles.ts:30 | the metadata type when present and non-empty, else `getFileType(name)`; never empty |
| Files.ToFileItem | src/hooks/useFiles.ts:26-34 | a record keeps the entry's id and timestamps, uses its name as both name and path, takes the entry's defaulted size and inferred type, and has a non-empty type |
| Files.Visible | src/hooks/useFiles.ts:25 | exactly the entries not named `.emptyFolderPlaceholder` are kept |
| Files.ToFileItems | src/hooks/useFiles.ts:24-34 | one record per kept entry, record `i` made from kept entry `i` |
| Files.VisibleIsSublist | src/hooks/useFiles.ts:24-25 | the kept entries are the listing in backend order with only the placeholders dropped; their number is the listing's length less the placeholders |
| Files.ListingRecords | src/hooks/useFiles.ts:25-33 | record `i` comes from a listed entry not named `.emptyFolderPlaceholder`, has `path == name`, the metadata size or 0, and the non-empty metadata type or `getFileType(name)` |
| Files.ListingOutcome | src/hooks/useFiles.ts:22-42 | an error leaves the list as it was; a null `data` gives the empty list; any other data gives its records, one per non-placeholder entry |
| Files.UploadKey | src/hooks/useFiles.ts:64 | the storage key ends with the file name and is longer than it |
| Files.KeyStamp | src/hooks/useFiles.ts:64 | the text before the first `-` of a key holds no `-` |
| Files.KeyName | src/hooks/useFiles.ts:64 | the text after the first `-` of a key is no longer than the key |
| Files.UploadKeyRoundTrip | src/hooks/useFiles.ts:64 | a key splits back at its first `-` into the clock's numeral, which reads back to the clock, and the original file name |
| Files.StampThenName | src/hooks/useFiles.ts:64 | a digit string, a `-` and a name split back into the digits and the name |
| Files.Settled | src/hooks/useFiles.ts:76-89 | a settled row keeps the name, is `completed` exactly when the upload succeeded, at 100, else `error` at 0 |
| Files.Pending | src/hooks/useFiles.ts:54-58 | the row every file of a batch starts with: its name, 0, `uploading` |
| Files.SettledTable | src/hooks/useFiles.ts:62-90 | after the loop the table has one row per file, row `i` settled by outcome `i` |
| Files.RowsIndependent | src/hooks/useFiles.ts:62-90 | row `i` depends only on outcome `i`: a failure does not stop or change other files |
| Files.UploadKeys | src/hooks/useFiles.ts:62-64 | one key per file, each splitting back to that file's name |
| Files.ThreeFileBatch | src/hooks/useFiles.ts:76-89 | a three-file batch whose second upload fails ends completed, error, completed |
| Files.FileStore.constructor | src/hooks/useFiles.ts:7-10 | no files, `loading` set, not uploading, an empty progress table |
| Files.FileStore.Refresh | src/hooks/useFiles.ts:12-43 | the list becomes the listing's records on success and is unchanged on error; `loading` ends false |
| Files.FileStore.SetRow | src/hooks/useFiles.ts:66-70 | one row of the table changes and no other |
| Files.FileStore.UploadFiles | src/hooks/useFiles.ts:49-101 | an empty batch changes nothing; otherwise a fresh table is settled row by row by the loop, one key is requested per file in order, the list is refreshed after the loop and both flags end false |
| Files.FileStore.ClearProgress | src/hooks/useFiles.ts:99 | the delayed callback empties the progress table |
| Files.FileStore.DeleteFile | src/hooks/useFiles.ts:127-141 | the file's path is requested; the list is refreshed only when the removal succeeded |
| Search.NameMatches | src/components/FileManager.tsx:32 | the lower-cased name contains the query |
| Search.KeepMatching | src/components/FileManager.tsx:32 | a file is kept exactly when it is in the list and its lower-cased name contains the query; never more files than listed |
| Search.KeepCounts | src/components/FileManager.tsx:32 | a matching file is kept as often as it is listed, any other file not at all |
| Search.FilterCounts | src/components/FileManager.tsx:29-33 | for a non-blank query, each matching file appears as often as in the list, any other not at all |
| Search.KeepAppend | src/components/FileManager.tsx:32 | filtering `a + b` gives the kept files of `a` followed by those of `b` |
| Search.KeepSingle | src/components/FileManager.tsx:32 | a one-file list is kept exactly when the name matches |
| Search.FilterAppend | src/components/FileManager.tsx:29-33 | for every query, the filtered `a + b` is the filtered `a` followed by the filtered `b` |
| Search.DuplicatesKept | src/components/FileManager.tsx:32 | a matching file listed twice is kept twice |
| Search.FilterFiles | src/components/FileManager.tsx:29-33 | a blank query returns the list unchanged; otherwise a file is kept exactly when its lower-cased name contains the lower-cased, untrimmed query |
| Search.KeepIsSublist | src/components/FileManager.tsx:32 | the kept files are an order-preserving sub-list of the list |
| Search.FilterIsSublist | src/components/FileManager.tsx:29-33 | the filtered list is an order-preserving sub-list of the files |
| Search.KeepIdempotent | src/components/FileManager.tsx:32 | keeping the matches of the matches changes nothing |
| Search.FilterIdempotent | src/components/FileManager.tsx:29-33 | filtering the filtered list again with the same query changes nothing |
| Search.BlankIgnoresCase | src/components/FileManager.tsx:30-31 | lower-casing does not make a query blank or non-blank |
| Search.FilterIgnoresQueryCase | src/components/FileManager.tsx:29-33 | two queries equal up to case select the same files |
| Search.FilterIgnoresNameCase | src/components/FileManager.tsx:32 | for two lists whose names agree position by position up to case, the file at each position is kept in one exactly when it is kept in the other, and every prefix keeps equally many |
| Search.SameKeptCount | src/components/FileManager.tsx:29-33 | two such lists keep equally many files, for every query |
| Search.SingleFileKept | src/components/FileManager.tsx:30-32 | a non-blank query occurring in the lower-cased name keeps the file |
| Search.ReportLetters | src/components/FileManager.tsx:31-32 | `Report.PDF` lower-cases to `report.pdf`, and both `pdf` and `PDF` lower-case to `pdf` |
| Search.ReportExample | src/components/FileManager.tsx:29-33 | `Report.PDF` is found by `pdf` and by `PDF` |
| Search.UntrimmedQueryExample | src/components/FileManager.tsx:30-32 | a non-blank query is not trimmed: ` pdf` does not find `report.pdf` |
| Search.Heading | src/components/FileManager.tsx:66 | `Search results` exactly when the query is non-empty, `Your Files` otherwise |
| Search.FoundLine | src/components/FileManager.tsx:68-72 | the count line is shown exactly when the query is non-empty |
| Search.FoundLabel | src/components/FileManager.tsx:70 | the count line's text; stated by `Search.FoundLabelReadsBack` |
| Search.FoundLabelReadsBack | src/components/FileManager.tsx:70 | the label starts with the count's numeral, which reads back to the count, and ends ` file found` exactly when the count is 1, ` files found` otherwise |
| Search.BlankQueryExample | src/components/FileManager.tsx:29-72 | a query of spaces shows the search heading and the count of the whole, unfiltered list |
| Search.RenderList | src/components/FileManager.tsx:75-99 | the spinner exactly while loading, the empty state exactly when not loading and nothing matches, else one card per filtered file in order |
| FileIcon.SizeOrDefault | src/components/FileIcon.tsx:20 | a missing size is `md`, a given size is kept |
| FileIcon.GetIconConfig | src/components/FileIcon.tsx:27-53 | the chain test by test; its behaviour is stated by `FileIcon.ChainIsRuleTable` and `FileIcon.IconIsFirstPassingRule` |
| FileIcon.FirstMatch | src/components/FileIcon.tsx:27-53 | the result is the fallback or the category of one of the rules |
| FileIcon.RuleTests | src/components/FileIcon.tsx:28-51 | each rule of the table tests what the matching line of the chain tests |
| FileIcon.UnrollRules | src/components/FileIcon.tsx:27-53 | the rule table read top to bottom is the nested choice of the chain |
| FileIcon.ChainIsRuleTable | src/components/FileIcon.tsx:27-53 | the component's if-chain is first-match over the rule table |
| FileIcon.FirstMatchStep | src/components/FileIcon.tsx:27-53 | the first rule decides when it passes, otherwise the rest of the table does |
| FileIcon.FirstMatchIff | src/components/FileIcon.tsx:27-53 | with distinct categories, rule `i`'s category is chosen exactly when rule `i` passes and no earlier rule does |
| FileIcon.FirstMatchGeneric | src/components/FileIcon.tsx:52 | the fallback is chosen exactly when no rule passes |
| FileIcon.RulesHaveDistinctKinds | src/components/FileIcon.tsx:27-52 | the eight rules choose eight different categories, none of them the fallback |
| FileIcon.IconIsFirstPassingRule | src/components/FileIcon.tsx:27-53 | every type gets exactly one category: the first passing rule's, or the fallback when none passes |
| FileIcon.MediaPrefixes | src/components/FileIcon.tsx:28-36 | `image/`, `video/` and `audio/` types get the image, video and audio icons |
| TypeIcons.NotMedia | src/components/FileIcon.tsx:28-36 | a type starting with neither `i`, `v` nor `au` passes none of the prefix tests |
| TypeIcons.OfficeIsCode | src/hooks/useFiles.ts:174-178 | an Office Open XML type whose last parts lack the earlier words gets the code icon |
| TypeIcons.SvgIsImage | src/components/FileIcon.tsx:28-46 | `image/svg+xml` contains `xml` but gets the image icon |
| TypeIcons.PdfIsPdf | src/components/FileIcon.tsx:37 | `application/pdf` gets the pdf icon |
| TypeIcons.ZipIsArchive | src/components/FileIcon.tsx:43 | `application/zip` gets the archive icon |
| TypeIcons.RarIsArchive | src/components/FileIcon.tsx:43 | `application/x-rar-compressed` gets the archive icon |
| TypeIcons.DocxIsCode | src/hooks/useFiles.ts:174 | the Word document type gets the code icon, through `openxmlformats` |
| TypeIcons.PptxIsCode | src/hooks/useFiles.ts:178 | the presentation type gets the code icon, through `openxmlformats` |
| TypeIcons.XlsxWords | src/hooks/useFiles.ts:176 | the spreadsheet type holds `spreadsheet` and `xml` but not `pdf` |
| TypeIcons.XlsxIsSpreadsheet | src/components/FileIcon.tsx:40-46 | the spreadsheet type contains `xml` but gets the spreadsheet icon, tested earlier |
| TypeIcons.TextTypes | src/components/FileIcon.tsx:49 | `text/plain` and `application/msword` get the text icon |
| TypeIcons.MswordIsText | src/hooks/useFiles.ts:173 | `application/msword` gets the text icon through `word` |
| TypeIcons.MarkupIsCode | src/components/FileIcon.tsx:46-51 | `text/html` and `text/css` contain `text` but get the code icon, tested first |
| AuthRules.LocalPart | src/pages/Auth.tsx:25 | `split('@')[0]` is the longest prefix without `@`, followed by `@` unless it is the whole address |
| AuthRules.Sanitize | src/pages/Auth.tsx:28 | same length; each letter or digit kept in place, every other character `_` |
| AuthRules.Collapse | src/pages/Auth.tsx:31 | collapsing keeps the first character, never lengthens, and leaves no two `_` side by side |
| AuthRules.CollapseDrop | src/pages/Auth.tsx:31 | dropping one `_` of an adjacent pair does not change the result; with `AuthRules.CollapseIdentity` every run of `_` ends as one `_` |
| AuthRules.RunExample | src/pages/Auth.tsx:31 | `a__b` collapses to `a_b` |
| AuthRules.TrimUnderscore | src/pages/Auth.tsx:34 | a leading `_` is dropped, then a trailing `_` of what remains exactly when there is one, and nothing else |
| AuthRules.Slug | src/pages/Auth.tsx:28-34 | the three replacements in order; stated by `AuthRules.SlugShape`, `AuthRules.SlugKeepsAlnums` and `AuthRules.SlugEmptyIff` |
| AuthRules.GenerateUsername | src/pages/Auth.tsx:21-40 | the proposal is empty exactly when the address has no `@` |
| AuthRules.Strip | src/pages/Auth.tsx:28-34 | the non-`_` characters, in order |
| AuthRules.StripAppend | src/pages/Auth.tsx:28-34 | dropping `_` distributes over concatenation |
| AuthRules.SanitizeKeepsAlnums | src/pages/Auth.tsx:28 | sanitising keeps exactly the letters and digits, in order, among the `_` |
| AuthRules.CollapseKeepsOthers | src/pages/Auth.tsx:31 | collapsing changes only runs of `_` |
| AuthRules.StripUnderscoreEnds | src/pages/Auth.tsx:34 | dropping an `_` at either end keeps the other characters |
| AuthRules.TrimKeepsOthers | src/pages/Auth.tsx:34 | trimming the ends changes only `_` |
| AuthRules.SlugKeepsAlnums | src/pages/Auth.tsx:25-34 | the slug's non-`_` characters are exactly the letters and digits of the local part, in order |
| AuthRules.CollapseWordChars | src/pages/Auth.tsx:31 | collapsing keeps the text within `[A-Za-z0-9_]` |
| AuthRules.SlugShape | src/pages/Auth.tsx:28-34 | the slug holds only `[A-Za-z0-9_]`, no `__`, and neither starts nor ends with `_` |
| AuthRules.SlugEmptyIff | src/pages/Auth.tsx:28-34 | the slug is empty exactly when the local part has no letter or digit |
| AuthRules.WordCharsAppend | src/pages/Auth.tsx:39 | joining two word-character strings gives a word-character string |
| AuthRules.GeneratedParts | src/pages/Auth.tsx:25-39 | a proposal is the slug followed by one to three digits reading back to the suffix, all within `[A-Za-z0-9_]` |
| AuthRules.AlnumSlug | src/pages/Auth.tsx:28-34 | a name of letters and digits is left unchanged by all three replacements |
| AuthRules.SanitizeIdentity | src/pages/Auth.tsx:28 | sanitising leaves letters and digits alone |
| AuthRules.CollapseIdentity | src/pages/Auth.tsx:31 | collapsing changes nothing without two adjacent `_` |
| AuthRules.FortyTwo | src/pages/Auth.tsx:39 | the suffix 42 is written `42` |
| AuthRules.AliceSlug | src/pages/Auth.tsx:28-34 | the slug of `alice` is `alice` |
| AuthRules.AliceExample | src/pages/Auth.tsx:21-40 | `alice@example.com` with suffix 42 proposes `alice42` |
| AuthRules.LocalPartBefore | src/pages/Auth.tsx:25 | the local part of `a@b` is `a` when `a` has no `@` |
| AuthRules.DotExample | src/pages/Auth.tsx:28-34 | `john.doe` becomes `john_doe` |
| AuthRules.MatchesAutoPattern | src/pages/Auth.tsx:599 | `^[a-zA-Z0-9_]+\d{1,3}$` as written; characterised by `AuthRules.AutoPatternIff` |
| AuthRules.AutoPatternIff | src/pages/Auth.tsx:599 | `^[a-zA-Z0-9_]+\d{1,3}$` holds exactly for word-character names of two or more characters ending in a digit |
| AuthRules.AutoFilledUsername | src/pages/Auth.tsx:595-604 | the username becomes the proposal whenever the view is sign-up, the username is empty or matches the pattern and the proposal is non-empty; it changes in no other case, and never to the empty string |
| AuthRules.HandTypedKept | src/pages/Auth.tsx:599 | a typed name not ending in a digit is never replaced |
| AuthRules.AliceKept | src/pages/Auth.tsx:599 | a hand-typed `alice` is never replaced |
| AuthRules.ProposalStaysReplaceable | src/pages/Auth.tsx:599-603 | a proposal with a non-empty slug matches the pattern, so later address edits go on replacing it |
| AuthRules.BareSuffixExample | src/pages/Auth.tsx:599-603 | `@x` with suffix 5 proposes `5`, which does not match the pattern and is kept by later edits |
| AuthRules.PhonePattern | src/pages/Auth.tsx:15 | `^\+?[1-9]\d{1,14}$` as written |
| AuthRules.PhoneValid | src/pages/Auth.tsx:15 | the reference language: after an optional `+`, 2 to 15 digits not starting with `0`; equal to the pattern by `AuthRules.PhonePatternIff` |
| AuthRules.PhonePatternIff | src/pages/Auth.tsx:15 | the phone pattern accepts exactly an optional `+` then 2 to 15 digits not starting with `0` |
| AuthRules.PhoneExamples | src/pages/Auth.tsx:15 | `+1234567890` and `12` are accepted; `+0123`, `1` and the empty string are not |
| AuthRules.EmailErrors | src/pages/Auth.tsx:79-96 | an `email` error exactly when the address check fails; a `password` error exactly when off the forgot view the password is shorter than 6; no other key; the schema messages |
| AuthRules.PhoneErrors | src/pages/Auth.tsx:98-108 | a `phone` error, with its message, exactly when the number fails the pattern, and no other key |
| AuthRules.ResetErrors | src/pages/Auth.tsx:110-124 | a `password` error exactly when shorter than 6 and a `confirmPassword` error exactly when the fields differ, and no other key |
| AuthRules.EmailPassesIff | src/pages/Auth.tsx:79-96 | `validateEmail` passes exactly when the address is accepted and, off the forgot view, the password has 6 characters |
| AuthRules.ResetPassesIff | src/pages/Auth.tsx:110-124 | `validateResetPassword` passes exactly when the password has 6 characters and both fields agree |
| AuthForm.Inv | src/pages/Auth.tsx:44-55 | the page's invariant: no code without a sent code, a code only sent to a valid number, errors only under validator keys; kept by `AuthForm.StepKeepsInv` |
| AuthForm.Enabled | src/pages/Auth.tsx:62-731 | which controls are on screen in which view and tab: the fragment read only on mount, new and confirm password only on the reset view, the username only on sign-up, the number, code and "use different phone number" only on the phone tab and by the sent flag, the address and password on the e-mail tab (the address also on the forgot view, the password also on the reset view); the birthday edit never |
| AuthForm.WithBirthdayField | src/pages/Auth.tsx:223-232 | the corrected page: as `Enabled`, plus a birthday input on the sign-up view |
| AuthForm.EmailSubmit | src/pages/Auth.tsx:191-273 | `handleEmailSubmit`; stated by `AuthForm.EmailSubmitFacts` |
| AuthForm.PhoneSubmit | src/pages/Auth.tsx:275-334 | `handlePhoneSubmit`; stated by `AuthForm.PhoneSubmitFacts` |
| AuthForm.ForgotSubmit | src/pages/Auth.tsx:126-158 | `handleForgotPassword`; stated by `AuthForm.ForgotSubmitFacts` |
| AuthForm.ResetSubmit | src/pages/Auth.tsx:160-189 | `handleResetPassword`; stated by `AuthForm.ResetSubmitFacts` |
| AuthForm.Step | src/pages/Auth.tsx:62-731 | one event handled; its invariant is `AuthForm.StepKeepsInv` |
| AuthForm.RedirectsHome | src/pages/Auth.tsx:73-77 | the redirect condition; stated by `AuthForm.RecoveryLinkFacts` |
| AuthForm.Run | src/pages/Auth.tsx:44-731 | a run of events on the page as written; stated by `AuthForm.RunKeepsInv` and `AuthForm.RunKeepsBirthday` |
| AuthForm.RunWithBirthdayField | src/pages/Auth.tsx:223-232 | a run on the corrected page; stated by `AuthForm.RunWithBirthdayFieldKeepsInv` |
| AuthForm.Initial | src/pages/Auth.tsx:44-55 | the first render: login view, no code sent, not loading, no errors, and the invariant holds |
| AuthForm.StepKeepsInv | src/pages/Auth.tsx:126-731 | every handler keeps the invariant: a code is only held after one was sent, only sent to a valid number, and errors sit under validator keys |
| AuthForm.EmailSubmitKeepsInv | src/pages/Auth.tsx:191-273 | the e-mail submit keeps the invariant |
| AuthForm.PhoneSubmitKeepsInv | src/pages/Auth.tsx:275-334 | the phone submit keeps the invariant, and sets the sent flag only for a valid number |
| AuthForm.ResetSubmitKeepsInv | src/pages/Auth.tsx:160-189 | the reset submit keeps the invariant |
| AuthForm.RunKeepsInv | src/pages/Auth.tsx:44-731 | any run of events keeps the invariant |
| AuthForm.ReachableInv | src/pages/Auth.tsx:44-731 | every state reachable from the first render satisfies the invariant |
| AuthForm.RunWithBirthdayFieldKeepsInv | src/pages/Auth.tsx:223-232 | the page with a birthday input keeps the invariant too |
| AuthForm.StepKeepsBirthday | src/pages/Auth.tsx:51-223 | no control on the page changes the birthday |
| AuthForm.RunKeepsBirthday | src/pages/Auth.tsx:51-223 | no run of events changes the birthday |
| AuthForm.EmailSignupNeverSucceeds | src/pages/Auth.tsx:223-232 | on the page as written, an e-mail sign-up never reaches the service and stops for the missing birthday once the validators pass |
| AuthForm.BirthdayFieldFixesSignup | src/pages/Auth.tsx:223-232 | with a birthday input on the sign-up view, a valid sign-up reaches the service |
| AuthForm.EditEmailStep | src/pages/Auth.tsx:595-604 | an edit of the address, on the e-mail tab or the forgot view, changes the address and the username as the auto-fill allows (never off sign-up), and nothing else |
| AuthForm.ToggleFacts | src/pages/Auth.tsx:727-731 | the toggle swaps login and sign-up, clears the code, the sent flag and the errors; twice returns to the same view |
| AuthForm.DifferentPhoneFacts | src/pages/Auth.tsx:712-715 | "use different phone number" clears the flag and the code, unlocking the number field and hiding the code field |
| AuthForm.ForgotRoundTrip | src/pages/Auth.tsx:433-620 | the forgot view is entered from login, and going back restores the state |
| AuthForm.RecoveryLinkFacts | src/pages/Auth.tsx:62-77 | on mount, a recovery fragment with a token enters the reset view and blocks the redirect of a signed-in user; any other fragment leaves the first state, from which a signed-in user is redirected |
| AuthForm.EmailSubmitFacts | src/pages/Auth.tsx:191-273 | rejected exactly when a validator fails; a sign-up without a birthday stops before the service; navigates home exactly when everything passes and the service succeeds |
| AuthForm.PhoneSubmitFacts | src/pages/Auth.tsx:275-334 | the first submit sets the flag exactly for a valid number the service sent a code to and is rejected exactly for an invalid number; the second verifies |
| AuthForm.ResetSubmitFacts | src/pages/Auth.tsx:160-189 | the reset is rejected exactly when a rule fails and navigates home exactly when both pass and the service succeeds |
| AuthForm.ForgotSubmitFacts | src/pages/Auth.tsx:126-158 | the view returns to login exactly when the address is accepted and the link was sent; an invalid address leaves only the `email` error |
| AuthForm.AuthPage.constructor | src/pages/Auth.tsx:44-55 | the page starts in the initial state, satisfying the invariant |
| AuthForm.AuthPage.SetState | src/pages/Auth.tsx:44-55 | every field takes the given state's value |
| AuthForm.AuthPage.Handle | src/pages/Auth.tsx:62-731 | one event changes the fields as the state machine's step does and keeps the invariant |
| AuthForm.AuthPage.ReadHash | src/pages/Auth.tsx:62-70 | the mount effect, run on the first state, makes the step for the fragment read and keeps the invariant |
| AuthForm.AuthPage.Toggle | src/pages/Auth.tsx:727-731 | the toggle updates the fields as the toggle step does |
| AuthForm.AuthPage.ChangeEmail | src/pages/Auth.tsx:595-604 | the address edit updates the fields, with the username proposal, as the edit step does |
| AuthForm.AuthPage.SubmitPhoneForm | src/pages/Auth.tsx:275-334 | the phone handler updates the fields and reports the effect as the phone step does |

## Left out

- The storage and identity service calls: listing, upload, download, remove, public URL, sign-in, sign-up, OTP, OAuth, reset and password update. Their answers are parameters (a `ListResponse`, per-file `bool` outcomes, `serviceOk` flags), and the sign-in error texts that choose between two toasts are not modelled.
- `downloadFile` and `getPublicUrl` are not modelled: they are only the service call and browser I/O (object URL, anchor click). `DeleteFile` models only which path is requested and the refresh.
- `Date.now()` and `Math.random()` are parameters (`clock`, `suffix < 1000`). The two-second timer that clears the progress table is the separate method `ClearProgress`, with no clock. The delayed invite-code redemption after sign-up is not modelled.
- Toasts, `console.error`, `sessionStorage` and writes to `window.location` are not modelled. Reading the URL fragment is the parameter of `ReadHash`.
- Async interleaving is not modelled. Each handler runs to completion, `loading` is set true while a service call is pending and read back false when it ends, and overlapping listings do not race.
- Files.FileStore.UploadFiles: each upload's answer is an error result or success. A call that throws instead would skip the remaining files and the refresh through the batch's `catch` branch, and that path is not modelled. The refresh itself cannot throw, because `fetchFiles` catches its own errors.
- AuthRules.EmailErrors: the validation library's e-mail syntax check is the parameter `emailOk`, not a regular expression.
- AuthRules.EmailErrors, AuthRules.ResetErrors: password length counts characters, while the library counts UTF-16 code units. They differ only for characters outside the Basic Multilingual Plane.
- Text.ToLower: lower-cases ASCII letters only, where `toLowerCase` also maps non-ASCII letters.
- TypeIcons: `xls`, `ppt`, `json`, `js`, `mp3`, `mp4` and the plain image types have no lemma of their own. The general lemmas `FileIcon.IconIsFirstPassingRule` and `FileIcon.MediaPrefixes` cover them.
- The Google button is modelled only as the event `GoogleLogin`: the provider redirect succeeds or the error clears `loading`.
- AuthForm.Enabled: does not track the `loading` flag, so a submit is allowed while another is pending; this does not matter for the invariant, because each handler runs to completion here. It also allows the fragment read again while the state is still the first one, where a second read of a fragment without a recovery token changes nothing.
- The sign-in page's field edits (password, confirm password, phone, code, username, method tab) are events of `AuthForm.Step` with no class method of their own. `AuthForm.AuthPage.Handle` performs any of them.
- The presentational components (`UploadZone`, `Sidebar`, `Header`, `EmptyState`, `FileCard` with `formatFileSize` and `formatDate`) and the markup are not modelled. `FileIcon`'s CSS classes and colours are not modelled: only the category and the size are.

## Findings

| source | as written | input that shows it | evidently intended | confidence | as-written member | corrected member |
|---|---|---|---|---|---|---|
| src/hooks/useFiles.ts:189 | `typeMap[ext] \|\| 'application/octet-stream'` on an object literal also finds properties inherited from `Object.prototype` | a file named `notes.Constructor`: the extension lower-cases to `constructor`, and the result is the `Object` function, not a string | extensions outside the table give `application/octet-stream` | medium, not executed | Files.GetFileTypeAsWritten, Files.InheritedKeyCounterexample | Files.GetFileType |
| src/pages/Auth.tsx:51, 223-232 | e-mail sign-up requires a non-empty `birthday`, but no input on the page calls `setBirthday` | any sign-up: toggle to sign-up, enter a valid address and a six-character password, submit: the page stops with "Birthday Required" every time | the sign-up form has a birthday field, so a valid sign-up reaches the service | high, not executed | AuthForm.RunKeepsBirthday, AuthForm.EmailSignupNeverSucceeds | AuthForm.WithBirthdayField, AuthForm.BirthdayFieldFixesSignup |

On the page as written, the model's class (`AuthForm.AuthPage`) keeps the birthday edit off screen. The steps are shared: `AuthForm.Step` accepts the birthday edit on the sign-up view, and `AuthForm.RunWithBirthdayField` runs the corrected page.

Two behaviours follow from the code and look deliberate, so they are stated as lemmas rather than findings:
- **Untrimmed heading.** The heading and count line test the untrimmed query, while the filter trims it. A query of spaces therefore shows "Search results" with every file (`Search.BlankQueryExample`).
- **Bare-digit proposal.** A proposal made of the suffix alone, such as `5`, does not match the auto-fill pattern, so later edits of the address leave it in place (`AuthRules.BareSuffixExample`).
