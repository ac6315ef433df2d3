# Study viewer navigation model

A verified Dafny model of the logic of a small browser viewer for botany and
zoology study notes. The viewer loads one spreadsheet sheet per subject. Each
data row names a branch, an optional topic, a subtopic, a description and
optional image and video links. The viewer shows them as an expandable tree
(subject, then branch, then topic, then subtopic) and opens a detail modal
that steps through the sibling subtopics with Next and Previous buttons.

The model has five modules:

- `Wrappers` (wrappers.dfy): the `Option` type, standing for JavaScript's
  `undefined` and `null`.
- `Sequences` (sequences.dfy): `Filter`, `Map` and `Distinct`. These are the
  array operations the viewer derives its tree with. `Distinct` is the
  first-occurrence order of a JavaScript `Set`.
- `Records` (records.dfy), the pure part of `src/App.tsx`:
  - rows become records: the header row is skipped and incomplete rows are
    dropped;
  - the distinct branches, the distinct topics of a branch, and the topic-less
    ("direct") subtopics of a branch;
  - the sibling list built when a subtopic is opened, and the search for the
    opened subtopic in that list.
- `Navigation` (navigation.dfy), the state of `src/App.tsx`:
  - a pure specification of the detail-view cursor (`Cursor`, `Open`, `Next`,
    `Previous`, `Close`) and lemmas about it;
  - the class `Session`, which holds the component's state fields. Its methods
    are the click handlers and the end of a sheet load, and each one is proved to update the state as its
    specification function says.
- `Media` (media.dfy) and `ModalView` (modal.dfy), from
  `src/components/Modal.tsx`:
  - detecting a video link and rewriting it to an embeddable player URL;
  - splitting a description into paragraphs and adding a leading newline to
    each paragraph that contains Latin letters;
  - the class `FullscreenModal`, which holds the `fullscreenView` state.

Behaviour of the code worth noting:

- When no video id is found, `getYouTubeEmbedUrl` builds its result with a
  template literal. The missing id is printed as the text `undefined`, so the
  result is `https://www.youtube.com/embed/undefined`, not the bare prefix.
  `Media.EmbedUrl` returns that text.
- `handleNextTopic` closes the view after the last sibling, and the model has
  this branch. However, the modal shows the Next button only while
  `showNextButton` holds, so a user can never reach that branch with a click.
- `handleNextTopic` also runs from a closed cursor (index -1). If the sibling
  list is not empty, it then reopens the first sibling. `Navigation.Next`
  keeps this behaviour.
- A topic argument of `""` is falsy. It therefore selects the topic-less
  siblings, just as a missing topic does (`Records.SiblingOf`).
- Clicking the same subtopic again toggles `expandedSubtopic` back to `null`,
  so the modal title becomes empty. The description still opens.

## Model

| member | source | states |
|---|---|---|
| Records.Text | src/App.tsx:44-47 | a text cell is its string, and `""` when the cell is empty or the row is too short |
| Records.Link | src/App.tsx:48-49 | an image or video link is absent when its cell is missing or empty; a present link is never `""` |
| Records.ToRecord | src/App.tsx:43-49 | branch, topic, subtopic and description are the strings of columns 0-3, `""` when a cell is missing; image and video are absent exactly when cells 4 and 5 are missing or empty, and otherwise are those cells; a record is kept exactly when its branch cell and its subtopic cell are present and non-empty |
| Records.ParseRows | src/App.tsx:42-50 | every record is well formed (non-empty branch and subtopic, no empty link); a record is kept exactly when some row after the header maps to it and has a branch and a subtopic; at least the header row is lost |
| Records.ParseRowsAppend | src/App.tsx:42-50 | parsing more rows appends their records after the earlier ones, so record order is row order |
| Records.ParseRowsIgnoresHeader | src/App.tsx:42 | the first row never influences the result |
| Sequences.Distinct | src/App.tsx:159 | the same elements as the input, no duplicates, ordered by first occurrence in the input |
| Records.Branches | src/App.tsx:159 | exactly the branches of the records, each once, in first-occurrence order |
| Records.Topics | src/App.tsx:160-161 | exactly the non-empty topics of records of the branch, each once, in first-occurrence order among those records |
| Records.DirectSubtopics | src/App.tsx:164-170 | exactly the projections of the branch's records that have no topic |
| Records.HasDirectSubtopics | src/App.tsx:162-163 | true iff some record of the branch has no topic |
| Records.HasDirectSubtopicsIff | src/App.tsx:162-170 | `hasDirectSubtopics` holds iff the direct-subtopic list is non-empty |
| Records.DirectSubtopicsAppend | src/App.tsx:164-170 | the direct-subtopic list keeps record order |
| Records.SiblingList | src/App.tsx:109-123 | exactly the items of the records of the branch and topic, or of the branch without topic when no non-empty topic is given |
| Records.SiblingListAppend | src/App.tsx:109-123 | the sibling list keeps record order |
| Records.DirectSubtopicsAreSiblings | src/App.tsx:117-123 | the topic-less sibling list is the rendered direct-subtopic list item by item, with the video added |
| Records.FindIndex | src/App.tsx:126 | -1 exactly when no item has the subtopic; otherwise the first position holding it |
| Records.ClickedSubtopicIsFound | src/App.tsx:205-231 | a subtopic offered under a branch and topic is always found in the sibling list opened for it |
| Navigation.ToggleSubject | src/App.tsx:81-85 | the clicked subject flips, every other subject is collapsed, at most one subject is expanded |
| Navigation.Toggle | src/App.tsx:92 | clicking the expanded value collapses it; clicking any other value expands that value |
| Navigation.ToggleTwice | src/App.tsx:91-102 | two clicks on one value leave it expanded iff it was expanded before, and otherwise nothing is expanded |
| Navigation.Open | src/App.tsx:104-130 | the list becomes the sibling list; the index is the first match or -1; the description is the clicked one; image and video come from the found item or are cleared |
| Navigation.Next | src/App.tsx:143-157 | below the last index, move to the next item and show it; otherwise index -1, selection cleared, title kept; from an open position never to index 0 |
| Navigation.Previous | src/App.tsx:132-141 | above index 0, move to the previous item and show it; otherwise nothing changes |
| Navigation.Close | src/App.tsx:294-299 | index -1 and the selection cleared, whatever the state |
| Navigation.ShowPrevious | src/App.tsx:304 | for a cursor in range, offered only when a previous sibling exists, and withheld only at index -1 or 0 |
| Navigation.ShowNext | src/App.tsx:305 | for a cursor in range, offered only when a next sibling exists, and withheld only at the last index (or -1 on an empty list) |
| Navigation.ShowNextIff | src/App.tsx:303-305 | the Next button is offered iff Next stays on a sibling |
| Navigation.ShowPreviousIff | src/App.tsx:302-304 | the Previous button is offered iff Previous moves the cursor |
| Navigation.PreviousAfterNext | src/App.tsx:132-157 | Previous undoes a Next that stayed open: the same index and the same item shown |
| Navigation.NextTimes | src/App.tsx:143-157 | any number of Next presses keeps the index in range and the list unchanged |
| Navigation.NextTimesWalks | src/App.tsx:143-150 | from position i, n Next presses (n at most the number of later siblings) show sibling i + n |
| Navigation.NextTimesCloses | src/App.tsx:143-157 | from position i of a list of length L, exactly L - i Next presses close the view with the selection cleared |
| Navigation.Run | src/App.tsx:104-157 | any sequence of open, next, previous and close steps keeps the index in [-1, length - 1] |
| Navigation.TwoSiblingWalk | src/App.tsx:104-157 | with two topic-less siblings, opening the first gives index 0 with Next offered and Previous not; Next shows the second, without Next offered; Next again closes |
| Navigation.Session.CurrentData | src/App.tsx:108 | the botany records while botany is expanded, the zoology records otherwise; well formed when both sheets are |
| Navigation.Session.ModalOpen | src/App.tsx:293 | open iff a description is selected; in a valid state a closed modal has index -1 and offers no Previous button |
| Navigation.Session.Title | src/App.tsx:300 | the expanded subtopic, or `""` when none is expanded |
| Navigation.Session.constructor | src/App.tsx:20-33 | initial state: nothing expanded, closed cursor over an empty list, no data |
| Navigation.Session.LoadSheet | src/App.tsx:41-51 | the parsed rows replace the chosen subject's records; the other subject's records stay |
| Navigation.Session.SubjectClick | src/App.tsx:81-89 | subjects toggled as `ToggleSubject`; branch, topic and subtopic collapsed; the invariant is kept |
| Navigation.Session.BranchClick | src/App.tsx:91-96 | branch toggled; topic and subtopic collapsed; nothing else changes |
| Navigation.Session.TopicClick | src/App.tsx:98-102 | topic toggled; subtopic collapsed; branch and everything else unchanged |
| Navigation.Session.SubtopicClick | src/App.tsx:104-130 | the cursor becomes `Open` of the old cursor over the open subject's records; the modal is open; the title is the subtopic, or `""` when that subtopic was already expanded |
| Navigation.Session.PreviousTopic | src/App.tsx:132-141 | the cursor becomes `Previous` of the old cursor; the modal stays open or closed |
| Navigation.Session.NextTopic | src/App.tsx:143-157 | the cursor becomes `Next` of the old cursor; the modal is open afterwards iff the Next button was offered before |
| Navigation.Session.CloseModal | src/App.tsx:294-299 | the cursor becomes `Close` of the old cursor and the modal is closed |
| Media.Contains | src/components/Modal.tsx:69 | true iff the substring occurs at some position |
| Media.IsYouTubeVideo | src/components/Modal.tsx:68-70 | true iff a link is present and contains "youtube.com" or "youtu.be" |
| Media.IdAt | src/components/Modal.tsx:74 | an id is found iff the eleven characters from the position are all id characters (none of them `"`, `&`, `?`, `/` or whitespace), and the id is exactly those characters |
| Media.MatchAt | src/components/Modal.tsx:74 | a match needs one of the two hosts at the position; after `youtu.be/` it is the id that follows; after `youtube.com/` it is the id of a `?v=` or `&v=` on the same line with no later one on that line, and it is absent only when no such query with an id starts on that line |
| Media.SameLineQuery | src/components/Modal.tsx:74 | the query the greedy `.*[?&]v=` settles on is the last one on the line; when there is none, no query followed by an id starts on that line |
| Media.IdText | src/components/Modal.tsx:75 | the template literal prints a found id as itself and a missing one as `undefined` |
| Media.LastQuery | src/components/Modal.tsx:74 | the id after the last `?v=` or `&v=` in range that is followed by an id, or none if there is no such query |
| Media.FirstMatch | src/components/Modal.tsx:74 | the leftmost position where the pattern matches, or none if it matches nowhere |
| Media.ExtractId | src/components/Modal.tsx:74 | the id captured by the leftmost position where the pattern matches, none iff it matches nowhere; an extracted id is always eleven id characters |
| Media.EmbedUrl | src/components/Modal.tsx:72-76 | a link containing "embed" is returned unchanged; otherwise the result starts with the player prefix and, when an id is found, is the prefix followed by exactly that id |
| Media.EmbedUrlWithoutId | src/components/Modal.tsx:74-75 | fails open: without an id the result is the prefix followed by "undefined" |
| Media.ShortLinkEmbedUrl | src/components/Modal.tsx:72-76 | `https://youtu.be/<id>...` gives the player URL of that id |
| Media.WatchLinkEmbedUrl | src/components/Modal.tsx:72-76 | `https://www.youtube.com/watch?v=<id>` gives the player URL of that id |
| Media.EmbedLinkPassesThrough | src/components/Modal.tsx:73 | any link containing "embed" is handed on unchanged |
| Media.Paragraphs | src/components/Modal.tsx:127 | at least one piece; joining the pieces with "\n\n" gives the text back; no piece contains "\n\n"; no piece but the last ends in a newline (the split is leftmost and non-overlapping) |
| Media.ContainsEnglish | src/components/Modal.tsx:104 | true iff some character is in a-z or A-Z |
| Media.DisplayText | src/components/Modal.tsx:106-107 | the paragraph ends the display text, which is one character longer exactly when the paragraph contains a Latin letter |
| Media.UndisplayDisplay | src/components/Modal.tsx:106-107 | removing the added newline gives back the paragraph |
| Media.DisplayRoundTrip | src/components/Modal.tsx:104-107 | undoing the display texts of a list of paragraphs gives the list back |
| Media.FormatDescription | src/components/Modal.tsx:117-127 | an array gives the display text of each element, in order; a string gives the display text of each of its paragraphs, in order; undoing the display texts gives back the elements, or, joined, the string |
| ModalView.VideoSource | src/components/Modal.tsx:179-190 | a hosted video plays from a player URL: the link itself if it already contains "embed", else the player prefix followed by the extracted id, or by "undefined" without one; any other video plays from its own link |
| ModalView.ContentPanel | src/components/Modal.tsx:160-199 | with no full-screen view the normal content shows; the full image shows iff the image view is chosen and an image exists; the same for video |
| ModalView.FullscreenModal.constructor | src/components/Modal.tsx:31-44 | the view starts as none |
| ModalView.FullscreenModal.OpenFullscreen | src/components/Modal.tsx:60-62 | the view becomes the chosen medium |
| ModalView.FullscreenModal.CloseFullscreen | src/components/Modal.tsx:64-66 | the view becomes none, so the normal content shows |
| ModalView.FullscreenModal.SetOpen | src/components/Modal.tsx:34-44 | when the modal closes the view is reset to none; otherwise the view is unchanged |

## Left out

- Loading the sheets (src/App.tsx:36-72) is left out: the `fetch`, `readXlsxFile` and the promise chain, whose failures are only logged. Only the mapping from rows to records is modelled. A row is a sequence of optional cell strings, each cell already converted with `toString()`.
- `scrollToItem`, `setTimeout`, `scrollIntoView` and the `itemRefs` bookkeeping are left out. They are DOM side effects.
- `toggleFullscreen` and `isFullscreen` are left out. They depend on the browser's `document.fullscreenElement`.
- The `document.body.style.overflow` changes in the `isOpen` effect are left out. They are DOM styling.
- All JSX rendering is left out, apart from the choice of content panel. This includes icons, `variantStyles` and CSS classes.
- React scheduling is left out. Each handler is one sequential update of the state, so batching, stale closures and functional updates such as `prev => prev + 1` are not modelled.
- Media.ExtractId: only two alternatives of the regular expression on src/components/Modal.tsx:74 are modelled: `youtu.be/` followed by an id, and `youtube.com/` followed by the last `?v=` or `&v=` on the same line. The alternatives `youtube.com/<segment>/<path>/` and `youtube.com/v/`, `/e/`, `/embed/` are not modelled. Where one of them matches first, the model's id can differ from the browser's. Links containing "embed" never reach the extraction.
- Media.IdAt: Dafny strings are sequences of Unicode scalar values, while JavaScript strings, and this regular expression (it has no `u` flag), count UTF-16 code units. So `{11}` counts code units, not characters: an id containing a character outside the Basic Multilingual Plane is eleven characters in the model but more than eleven code units in the browser. Lone surrogates cannot be represented in the model.
- Media.IsYouTubeVideo: returns a boolean. The source returns `undefined` for a missing link, which is used only as a falsy value.
