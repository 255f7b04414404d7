# digiclo closet core, modelled in Dafny

digiclo is a digital closet. A mobile client lets a user photograph a piece
of clothing. The photo goes through an upload pipeline that strips its
data-URL header, removes the background, compresses it and stores it. A
captioning tagger then suggests tags, and the item is saved in an
owner-scoped collection. The user browses the collection by category
(tops, shoes), favourites and a tag search. They also combine a top, a
bottom and a shoe into a saved outfit. Accounts use e-mail and password
with a bearer token.

This project models the decision logic of that system and proves its
properties:

- **Backend record stores.** `ClothesRoutes.ItemStore` and
  `OutfitRoutes.OutfitStore` are classes over a sequence of documents,
  kept in insertion order, with an id counter. The caller's id is an
  input. Every lookup filters on id and owner. Proved properties:
  - ownership isolation;
  - two favourite toggles undo each other, up to the `updatedAt` stamp;
  - nothing changes on the 400 and 404 paths.
- **Schemas.** `ClothingItemModel` and `OutfitModel` are records plus
  required-field predicates.
- **Credential table.** `AuthRoutes.UserTable` has signup and login.
  Hashing, password comparison, a failing save and a missing signing
  secret are parameters.
- **Upload pipeline.**
  - `UploadRoutes` holds the pure parts: the data-URL prefix strip
    (the greedy regular expression `^data:image\/\w+;base64,`) and the
    temp-path derivation.
  - `UploadRoutes.UploadService` is the stage and cleanup state machine
    over a map from temp path to contents.
- **Tagger post-filter.** `Tagger` runs over an abstract token list of
  (text, lemma, part of speech). Its loop is a method proved against a
  specification function.
- **Client logic.**
  - the tag editor (`TagsInput`);
  - the Tops and Shoes list views (`ClosetViews`, sorted by `Ordering`);
  - the outfit builder's per-slot selection (`OutfitSelection`);
  - the upload form (`UploadScreen`);
  - the authentication session and its error messages (`AuthSession`);
  - the sign-up and log-in field checks (`CredentialForms`).

The library calls are modelled as inputs:

- the clock and the database id generator;
- background removal, compression and the cloud upload;
- bcrypt and the JWT signer;
- the captioning model and spaCy;
- AsyncStorage and the HTTP replies.

Each of them is a parameter: a function, a flag, or a datatype of
possible replies.

## Model

| member | source | states |
|---|---|---|
| ClothingItemModel.RequiredStrings | backend/models/ClothingItem.js:5-7 | an item with an empty label, category or image URL fails schema validation |
| ClothingItemModel.SchemaValid | backend/models/ClothingItem.js:5-7 | defines schema validation: label, category and image URL are all non-empty strings |
| ClothingItemModel.CategoryIsOpen | backend/models/ClothingItem.js:6 | any non-empty category is accepted; the schema has no closed set of categories |
| ClothingItemModel.TagsMayRepeat | backend/models/ClothingItem.js:8 | a valid item stays valid with a repeated tag: tags carry no uniqueness constraint |
| ClothesRoutes.ItemStore.Create | backend/routes/clothesRoutes.js:11-42 | missing or empty label, category or image URL gives 400 and leaves the store and counter untouched; otherwise it returns 201 with the new item, which has tags defaulting to [], isFavorite defaulting to false, the caller as owner and the current time as both createdAt and updatedAt, and that item is appended |
| ClothesRoutes.ListOwned | backend/routes/clothesRoutes.js:49-51 | the result is a permutation of the caller's documents, ordered by createdAt descending |
| ClothesRoutes.ListOwnedMembers | backend/routes/clothesRoutes.js:49-51 | a document is listed exactly when it is stored and owned by the caller |
| ClothesRoutes.ItemStore.List | backend/routes/clothesRoutes.js:47-57 | exactly the caller's documents, newest first, as a permutation of the owner-filtered collection |
| ClothesRoutes.ItemStore.ReadOne | backend/routes/clothesRoutes.js:62-76 | 200 exactly when a document with that id is owned by the caller; otherwise the same 404 "Item not found" for absent and for not-yours (ids are well-formed here; a malformed id's 500 is listed under Left out) |
| ClothesRoutes.Toggled | backend/routes/clothesRoutes.js:83-93 | one document at most changes, the caller's with that id: its isFavorite field flips and the save sets its updatedAt to the toggle's time, and no other field changes; with no such document the collection is unchanged |
| ClothesRoutes.ItemStore.ToggleFavorite | backend/routes/clothesRoutes.js:81-98 | the new collection is `Toggled` of the old; 404 when the caller owns no document with that id, else 200 with the updated document |
| ClothesRoutes.ToggleTwiceRestores | backend/routes/clothesRoutes.js:91 | two toggles of the same id by the same caller restore the collection, except that the toggled document's updatedAt holds the second toggle's time |
| ClothesRoutes.FavoriteScenario | backend/routes/clothesRoutes.js:27-37 | a created item starts unfavourited with both timestamps at the creation time; the first toggle favourites it and stamps updatedAt; the second unfavourites it, and the store ends as it was right after the create except that the item's updatedAt is the second toggle's time |
| ClothesRoutes.Retagged | backend/routes/clothesRoutes.js:111-115 | only the caller's document with that id changes: its tags are replaced wholesale and the update sets its updatedAt to the update's time, and no other field changes; with no such document nothing changes |
| ClothesRoutes.ItemStore.UpdateTags | backend/routes/clothesRoutes.js:103-126 | non-array tags give 400 before any lookup and leave the store unchanged; otherwise the collection becomes `Retagged` and the reply is 404 or 200 with the updated document |
| ClothesRoutes.RetagTwiceIsOnce | backend/routes/clothesRoutes.js:111-115 | replacing the tags with the same list twice equals doing it once at the time of the second update |
| ClothesRoutes.ToggleIsolated | backend/routes/clothesRoutes.js:83-92 | another user's documents are identical before and after a toggle |
| ClothesRoutes.RetagIsolated | backend/routes/clothesRoutes.js:111-115 | another user's documents are identical before and after a tag replacement |
| ClothesRoutes.CreateIsolated | backend/routes/clothesRoutes.js:27-35 | a document created by one user does not appear among another user's documents |
| ClothesRoutes.ReadDependsOnOwnDocumentsOnly | backend/routes/clothesRoutes.js:49-67 | two collections that agree on the caller's documents give the caller the same listing and the same read-one outcome |
| OutfitModel.StrictFieldsAsWritten | backend/models/Outfit.js:3-26 | saving drops the route's userId, since the schema declares no such path, and changes nothing else |
| OutfitModel.SchemaAsWrittenAccepts | backend/models/Outfit.js:3-26 | defines validation as written: the three references are present and prompt and image URL are non-empty strings |
| OutfitModel.SchemaAccepts | backend/models/Outfit.js:3-18 | defines the corrected validation: the three references and an owner are present, and prompt and image URL are optional |
| OutfitModel.Stored | backend/models/Outfit.js:3-26 | an accepted draft is stored with its references, prompt, image URL and owner unchanged, plus the given id and time |
| OutfitRoutes.Resolve | backend/routes/outfitRoutes.js:51-54 | a reference resolves to a stored item with that id, and to nothing exactly when no item has it |
| OutfitRoutes.Populate | backend/routes/outfitRoutes.js:51-54 | defines `populate('top bottom shoe')`: the outfit with each of its three references resolved against the clothing collection |
| OutfitRoutes.RouteDraft | backend/routes/outfitRoutes.js:42-47 | defines the document the route builds: the three references and the caller as owner, no prompt and no image URL |
| OutfitRoutes.PopulateIgnoresOwner | backend/routes/outfitRoutes.js:51-54 | population resolves a reference to an item whatever that item's owner, so the three references are not checked for ownership |
| OutfitRoutes.ListOwnedOutfits | backend/routes/outfitRoutes.js:18-22 | a permutation of the caller's outfits, ordered by createdAt descending |
| OutfitRoutes.ListOwnedMembers | backend/routes/outfitRoutes.js:18-22 | an outfit is listed exactly when it is stored and owned by the caller |
| OutfitRoutes.PopulateAll | backend/routes/outfitRoutes.js:18-22 | one populated entry per outfit, in the same order |
| OutfitRoutes.ListedContents | backend/routes/outfitRoutes.js:16-29 | every listed entry is a stored outfit of the caller, and every stored outfit of the caller is listed |
| OutfitRoutes.ListedOrder | backend/routes/outfitRoutes.js:16-29 | as many entries as the caller owns outfits, newest first, each populated from the clothing collection |
| OutfitRoutes.OutfitStore.List | backend/routes/outfitRoutes.js:16-29 | the caller's outfits and no others, all of them, newest first, each populated |
| OutfitRoutes.RouteDraftRejectedAsWritten | backend/routes/outfitRoutes.js:42-49 | the document the route builds never passes the schema as written, because prompt and imageUrl are missing |
| OutfitRoutes.CreateStatusAsWritten | backend/routes/outfitRoutes.js:32-62 | as written, the handler answers 400 exactly when a reference is missing and never answers 201 |
| OutfitRoutes.RouteDraftAccepted | backend/routes/outfitRoutes.js:42-47 | under the corrected schema the route's document is accepted and keeps the caller as owner |
| OutfitRoutes.OutfitStore.Create | backend/routes/outfitRoutes.js:32-62 | a missing reference gives 400 and stores nothing; otherwise, under the corrected schema, the outfit is appended with the caller as owner, no prompt and no image, and 201 returns it populated |
| OutfitRoutes.OutfitStore.Delete | backend/routes/outfitRoutes.js:65-81 | removes exactly the first outfit with that id owned by the caller and answers 200 "Outfit deleted"; otherwise 404 and the store is unchanged |
| OutfitRoutes.DeleteIsolated | backend/routes/outfitRoutes.js:67-70 | a deletion by one user leaves every other user's outfits unchanged |
| OutfitRoutes.DeleteKeepsClothes | backend/routes/outfitRoutes.js:67-70 | deleting an outfit leaves the clothing collection and its counter unchanged |
| Ordering.InsertDesc | backend/routes/clothesRoutes.js:51 | insertion adds exactly one element to the multiset |
| Ordering.SortDesc | backend/routes/clothesRoutes.js:51 | the sort is a permutation of its input |
| Ordering.InsertDescSorted | backend/routes/clothesRoutes.js:51 | inserting into a list sorted largest key first keeps it sorted |
| Ordering.SortDescSorted | backend/routes/clothesRoutes.js:51 | the sort's output is ordered by key, largest first |
| Ordering.SortDescMembers | backend/routes/clothesRoutes.js:51 | the sort keeps exactly its input's elements |
| Ordering.WithKey | src/screens/clothes/Tops.tsx:75-77 | the elements with one key form a list no longer than the input |
| Ordering.NoneWithKey | src/screens/clothes/Tops.tsx:75-77 | when every key is smaller than k, no element has key k |
| Ordering.InsertDescStable | src/screens/clothes/Tops.tsx:75-77 | an inserted element goes after every element with the same key |
| Ordering.SortDescStable | src/screens/clothes/Tops.tsx:75-77 | the sort is stable: the elements with any one key keep their input order |
| AuthRoutes.Project | backend/routes/auth.js:56-62 | the reply's user is the id and e-mail of the stored user and nothing more |
| AuthRoutes.Issue | backend/routes/auth.js:49-62 | defines a successful reply: the status, a token for the user id with a 24h expiry, and the id/e-mail projection |
| AuthRoutes.FindByEmail | backend/routes/auth.js:19 | a found index holds that e-mail, and nothing is found exactly when no user has it |
| AuthRoutes.FindByEmailUnique | backend/routes/auth.js:19-23 | with unique e-mails, looking up a stored user's e-mail finds that user |
| AuthRoutes.UserTable.Signup | backend/routes/auth.js:8-78 | a missing email or password gives 400 with the table unchanged; an existing e-mail gives 400 and adds nobody, so e-mails stay unique; a failed save gives 500 with the table unchanged; otherwise exactly one user is added, and the reply is 201 with the token and the id/e-mail projection, or 500 when there is no signing secret |
| AuthRoutes.UserTable.Login | backend/routes/auth.js:81-115 | an unknown or absent e-mail and a wrong password give the same 401 "Invalid credentials"; success, which needs a matching password and a secret, returns 200 with the token and projection of that user; every other failure is 500 "Error logging in"; the table is never changed |
| AuthRoutes.TokensAgree | backend/routes/auth.js:49-53 | signup and login issue the same payload, the user id with a 24h expiry, and the same projection |
| AuthRoutes.SignupThenLogin | backend/routes/auth.js:27-110 | after a successful signup, logging in with the same credentials succeeds and returns the same user and token |
| UploadRoutes.WordRun | backend/routes/uploadRoutes.js:24 | the longest prefix of `\w` characters: all of its characters are word characters, and the next one is not |
| UploadRoutes.DataUrlPrefixLength | backend/routes/uploadRoutes.js:24 | finds the length of a `data:image/<word>;base64,` prefix when there is one, and that prefix is the only one |
| UploadRoutes.GreedyMatch | backend/routes/uploadRoutes.js:24 | the greedy word run followed by ";base64," forms a prefix |
| UploadRoutes.PrefixMatchIsUnique | backend/routes/uploadRoutes.js:24 | every matching prefix consists of the header, the maximal word run and the marker |
| UploadRoutes.StripDataUrlPrefix | backend/routes/uploadRoutes.js:24 | the result is a suffix of the input, and whatever was removed is a data-URL prefix |
| UploadRoutes.StripRoundTrip | backend/routes/uploadRoutes.js:24 | stripping `data:image/<word>;base64,` + payload gives back exactly the payload |
| UploadRoutes.StripWithoutPrefix | backend/routes/uploadRoutes.js:24 | a string with no such prefix is unchanged |
| UploadRoutes.InputPath | backend/routes/uploadRoutes.js:19 | defines the input path: `<cwd>/temp/<uuid>.png` |
| UploadRoutes.OutputPath | backend/routes/uploadRoutes.js:20 | defines the output path: the input path with its first ".png" replaced by "-no-bg.png" |
| UploadRoutes.CompressedPath | backend/routes/uploadRoutes.js:36 | defines the compressed path: the output path with its first ".png" replaced by "-compressed.png" |
| UploadRoutes.PathsDistinct | backend/routes/uploadRoutes.js:19-36 | the input, `-no-bg` and `-compressed` paths are three different paths of increasing length |
| UploadRoutes.PathsConcrete | backend/routes/uploadRoutes.js:19-36 | when the directory and uuid hold no ".png", the paths are `<uuid>-no-bg.png` and `<uuid>-no-bg-compressed.png` in `temp` |
| UploadRoutes.CleanupOfWrites | backend/routes/uploadRoutes.js:26-59 | apart from the input and output paths, the stages write only the compressed path, and only when compression completed |
| UploadRoutes.UploadService.Stages | backend/routes/uploadRoutes.js:24-45 | succeeds exactly when every stage does and a URL comes back; the upload receives the compressed, background-free payload and happens only after both image steps |
| UploadRoutes.UploadService.HandleAt | backend/routes/uploadRoutes.js:22-62 | success returns the URL and removes all three temp files; failure returns 500 "Image upload failed", uploads nothing more, and removes only the input and output files |
| UploadRoutes.UploadService.RemoveIfPresent | backend/routes/uploadRoutes.js:58-59 | `if (existsSync(p)) unlinkSync(p)`: afterwards the path is absent and nothing else has changed |
| UploadRoutes.UploadService.Handle | backend/routes/uploadRoutes.js:15-62 | the handler as written: on success the three temp files are gone and the URL is returned; any failure, including a missing image, gives 500 with no upload, and a compressed file written before the failure stays |
| UploadRoutes.FailedUploadLeavesCompressedFile | backend/routes/uploadRoutes.js:54-61 | an upload that fails after compression leaves the compressed temp file on disk |
| UploadRoutes.UploadService.HandleWithFullCleanup | backend/routes/uploadRoutes.js:15-62 | corrected handler: the same replies, and no temp file is left on either path |
| Tagger.Step | backend/tagger_api.py:77-98 | one token adds at most its normalised lemma, at the end, and does so exactly when it is kept and not yet present |
| Tagger.TagsOf | backend/tagger_api.py:74-98 | defines the tags of the whole token list, without the cap: one `Step` per token, in order |
| Tagger.Kept | backend/tagger_api.py:77-98 | the candidate lemmas are no more numerous than the tokens |
| Tagger.PySliceTo | backend/tagger_api.py:103 | Python's `[:k]`: a prefix whose length follows Python's rules for positive, oversized and negative k |
| Tagger.ConsiderToken | backend/tagger_api.py:78-98 | reports whether the token passed the prompt and alphabetic guards, extends the tags as `Step` does, and keeps `seen` equal to the set of tags |
| Tagger.FilterTags | backend/tagger_api.py:74-103 | the loop with its early break returns the first top_k tags of the whole token list (none for top_k <= 0), so there are never more than top_k |
| Tagger.TagsAreKept | backend/tagger_api.py:74-98 | the tags and the kept candidate lemmas are the same set |
| Tagger.TagsDistinct | backend/tagger_api.py:74-98 | the tags contain no duplicates |
| Tagger.KeptFromTokens | backend/tagger_api.py:77-98 | every candidate lemma comes from a kept token |
| Tagger.TagShape | backend/tagger_api.py:81-98 | a tag is no prompt lemma, is longer than one character, comes from an alphabetic token, and if it is a stop noun it entered through the adjective branch |
| Tagger.CappedTags | backend/tagger_api.py:100-103 | capping keeps the tags distinct and adds none |
| Tagger.StopNounDropped | backend/tagger_api.py:95 | a noun or proper noun whose lemma is a stop noun is never kept |
| Tagger.FirstPos | backend/tagger_api.py:77-98 | the index of the first occurrence, or the length when absent |
| Tagger.TagsInFirstSeenOrder | backend/tagger_api.py:77-98 | the tags are ordered by the first occurrence of each among the candidate lemmas |
| Tagger.StripPromptEcho | backend/tagger_api.py:66-70 | a caption not starting with the prompt is unchanged; otherwise the prompt is removed |
| Tagger.StripPromptEchoRecovers | backend/tagger_api.py:66-70 | prompt + rest becomes the trimmed rest |
| Tagger.Caption | backend/tagger_api.py:64-70 | defines the caption: the decoded text lower-cased, stripped, then with an echoed prompt removed |
| Common.TrimIsMiddle | src/components/TagsInput.tsx:27 | `trim()` removes a white-space prefix and a white-space suffix, and the result begins and ends with non-white space |
| Common.Trim | src/components/TagsInput.tsx:27 | `trim()`: the result is no longer than its input (its shape is stated by `Common.TrimIsMiddle`) |
| Common.TrimEmptyIffBlank | src/screens/clothes/Tops.tsx:68 | the trimmed text is empty exactly when the text is white space only |
| Common.Lower | src/screens/clothes/Tops.tsx:70 | lower-casing keeps the length |
| Common.IndexOfFrom | backend/routes/uploadRoutes.js:20 | the first occurrence at or after a position, or none exactly when there is none |
| Common.ReplaceFirst | backend/routes/uploadRoutes.js:20 | `String.replace` with a string pattern: the first occurrence, if any, is replaced, and the rest is unchanged |
| Common.Filter | src/screens/clothes/Shoes.tsx:62-71 | `Array.filter`: the result holds only accepted elements, drawn from its input |
| Common.FilterMembers | src/screens/clothes/Shoes.tsx:62-71 | an element is kept exactly when it is present and accepted |
| Common.FilterIsSubsequence | src/screens/clothes/Shoes.tsx:62-71 | filtering keeps the input's order |
| Common.FirstIndex | backend/routes/clothesRoutes.js:64-67 | `findOne`: the first matching index, or none exactly when nothing matches |
| TagsInput.AddTag | src/components/TagsInput.tsx:25-32 | when not editable nothing changes; otherwise the input is cleared, and the trimmed input is appended last exactly when it is non-empty and new |
| TagsInput.RemoveTag | src/components/TagsInput.tsx:34-37 | when not editable nothing changes; otherwise no copy of the tag remains, every copy of every other tag remains, the list shrinks by exactly the number of copies removed, and the input is kept |
| TagsInput.BlankInputAddsNothing | src/components/TagsInput.tsx:27-31 | white-space-only input adds no tag and is cleared |
| TagsInput.AddTagKeepsDistinct | src/components/TagsInput.tsx:28-30 | a duplicate-free list stays duplicate-free |
| TagsInput.RemoveTagSpec | src/components/TagsInput.tsx:36 | every occurrence goes; every copy of every other tag stays, in its original order; an absent tag changes nothing |
| TagsInput.RemoveUndoesAdd | src/components/TagsInput.tsx:25-37 | removing a tag just added restores the list |
| ClosetViews.CategoryView | src/screens/clothes/Tops.tsx:52 | exactly the fetched items of that category, in fetched order |
| ClosetViews.ModeView | src/screens/clothes/Tops.tsx:63-64 | all mode keeps the list; favourites mode keeps exactly the favourite items, in order |
| ClosetViews.MatchesSearch | src/screens/clothes/Tops.tsx:67-72 | defines the search test: the trimmed search is empty, or some tag contains the untrimmed search, ignoring case |
| ClosetViews.SearchView | src/screens/clothes/Tops.tsx:67-72 | a blank search keeps every item; otherwise an item is kept exactly when one of its tags contains the untrimmed search text, ignoring case; order is kept |
| ClosetViews.TopsView | src/screens/clothes/Tops.tsx:75-77 | a permutation of the filtered list, ordered by createdAt descending |
| ClosetViews.TopsTiesKeepOrder | src/screens/clothes/Tops.tsx:75-77 | tops with equal creation times keep their filtered order |
| ClosetViews.TopsViewMembers | src/screens/clothes/Tops.tsx:52-79 | a top is listed exactly when it was fetched with category 'top' and passes the mode and the search |
| ClosetViews.ShoesView | src/screens/clothes/Shoes.tsx:62-71 | the list is an order-preserving subsequence of the fetched items, with no sort |
| ClosetViews.ShoesViewMembers | src/screens/clothes/Shoes.tsx:51-71 | a shoe is listed exactly when it was fetched with category 'shoe' and passes the mode and the search |
| ClosetViews.SearchIsNotTrimmed | src/screens/clothes/Tops.tsx:67-72 | for any non-blank search equal, ignoring case, to one of an item's tags, with no tag longer: the search finds the item and the same search with a trailing space does not |
| ClosetViews.SearchIgnoresCase | src/screens/clothes/Tops.tsx:70 | any two searches that lower-case alike select exactly the same items |
| ClosetViews.ToggleSearch | src/screens/clothes/Tops.tsx:104 | the SEARCH button flips the dropdown and keeps the text |
| ClosetViews.CloseSearch | src/screens/clothes/Tops.tsx:141-145 | closing hides the dropdown and clears the text, after which the search keeps every item |
| ClosetViews.ToggleTwiceRestores | src/screens/clothes/Shoes.tsx:96 | two presses of SEARCH restore the box |
| OutfitSelection.Set | screens/HomeScreen.tsx:30-33 | one slot takes the new value and the others are unchanged |
| OutfitSelection.Press | screens/HomeScreen.tsx:28-35 | a press without a slot changes nothing; pressing the held label clears its slot; otherwise the slot takes the label; other slots never change |
| OutfitSelection.IsSelected | screens/HomeScreen.tsx:49 | defines `isSelected`: the item has a slot and its slot holds its label |
| OutfitSelection.PressFlipsSelected | screens/HomeScreen.tsx:49 | a press flips whether the item is shown as selected |
| OutfitSelection.PressTwice | screens/HomeScreen.tsx:30-33 | from an empty slot, or one already holding the label, two presses restore the selection |
| OutfitSelection.PressTwiceReplaced | screens/HomeScreen.tsx:30-33 | when another label was held, two presses leave the slot empty |
| OutfitSelection.SelectedIsLastPress | screens/HomeScreen.tsx:49 | after a press on a slot, no other label is shown as selected in it |
| UploadScreen.DataUrl | src/screens/UploadScreen.tsx:58 | the backend prefix strip recovers the picked payload exactly |
| UploadScreen.TagsFromReply | src/screens/UploadScreen.tsx:85-101 | the tagger's tags are used only when the reply is ok and holds an array; every other reply gives [] |
| UploadScreen.UploadResult | src/screens/UploadScreen.tsx:107-125 | a URL exactly when there is an image and the reply is ok with a URL; otherwise no URL |
| UploadScreen.FormAlert | src/screens/UploadScreen.tsx:129-140 | defines the guard chain: the first alert among blank label, empty category and missing image (its order is stated by `UploadScreen.FormAlertOrder`) |
| UploadScreen.FormAlertOrder | src/screens/UploadScreen.tsx:129-140 | the guards fire in order: blank label, then empty category, then no image; none fires exactly when all three pass |
| UploadScreen.PostFailure | src/screens/UploadScreen.tsx:162-170 | the alert text is the thrown message, the server's error, or "Save failed" |
| UploadScreen.SentBodyAccepted | src/screens/UploadScreen.tsx:153-160 | a body that passed the form guards passes the backend's required-field check |
| UploadScreen.AsItemBody | src/screens/UploadScreen.tsx:153-160 | defines the POST body: label, category, image URL and tags, with no favourite flag |
| UploadScreen.TryEffect | src/screens/UploadScreen.tsx:142-170 | the POST is sent exactly when there is a token and an uploaded URL, and carries that URL; the screen goes back exactly when the POST succeeds; otherwise one alert names what failed |
| UploadScreen.SaveEffectOf | src/screens/UploadScreen.tsx:127-174 | defines what one save does: nothing while uploading, a guard alert, or the effect of `TryEffect` (its cases are stated by `UploadScreen.SaveEffectCases`) |
| UploadScreen.SaveEffectCases | src/screens/UploadScreen.tsx:127-174 | a save while uploading does nothing; a POST is sent exactly when the guards pass, a token exists and the upload gave a URL; it goes back exactly on a successful POST; otherwise one alert |
| UploadScreen.SavedBodyAccepted | src/screens/UploadScreen.tsx:127-160 | whatever the screen sends passes the backend's required-field check |
| UploadScreen.UploadForm.FetchTags | src/screens/UploadScreen.tsx:64-105 | the tags become the reply's tags, the tagging flag ends false, and nothing else changes |
| UploadScreen.UploadForm.PickImage | src/screens/UploadScreen.tsx:43-62 | a denied permission only alerts; a picked asset sets the image to the JPEG data URL of its payload, the preview URI and the tagger's tags; a cancel keeps the form |
| UploadScreen.UploadForm.Save | src/screens/UploadScreen.tsx:127-174 | the alerts, posts and navigation grow by exactly the effect `SaveEffectOf` describes; the form fields are kept and the uploading flag is back to its old value |
| UploadScreen.UploadForm.Submit | src/screens/UploadScreen.tsx:142-173 | past the guards, the effect is `TryEffect`, and the uploading flag is reset on every exit |
| AuthSession.Join | src/contexts/AuthContext.tsx:65 | `join(', ')`: empty for no items, the item itself for one, and starting with the first item otherwise |
| AuthSession.SignUpFallback | src/contexts/AuthContext.tsx:68-84 | after `details`, the order is the server message, then 400, then 500, then no response, then the generic message |
| AuthSession.SignUpErrorAsWritten | src/contexts/AuthContext.tsx:64-84 | as written: a details array is joined with ", "; a details value that is not an array fails calling `join`; without details the fallback chain applies |
| AuthSession.SignUpError | src/contexts/AuthContext.tsx:64-84 | corrected: always a message; a details array is joined, anything else falls back |
| AuthSession.SignUpErrorAgrees | src/contexts/AuthContext.tsx:64-84 | the two versions agree whenever the one as written produces a message, which it fails to do exactly for details objects |
| AuthSession.SaveFailureAsWritten | src/contexts/AuthContext.tsx:64-66 | the backend's reply to a save that fails Mongoose validation, whose details are the validation `errors` object, makes the handler as written fail on `join` |
| AuthSession.SaveFailureCorrected | src/contexts/AuthContext.tsx:64-70 | the corrected mapping shows that validation-failure reply's message, "Error saving user" |
| AuthSession.SignInError | src/contexts/AuthContext.tsx:103-115 | the server message first, then the 401 text, then the network text, then the generic text |
| AuthSession.LoginFailureShown | src/contexts/AuthContext.tsx:103-105 | every login failure from the backend is shown with its own message, so the 401 fallback text never appears |
| AuthSession.SignUpFailureShown | src/contexts/AuthContext.tsx:68-70 | a backend signup failure without details is shown with its message |
| AuthSession.UseAuth | src/contexts/AuthContext.tsx:145-151 | raises "useAuth must be used within an AuthProvider" exactly outside a provider; otherwise it returns the context |
| AuthSession.Session.LoadStoredUser | src/contexts/AuthContext.tsx:32-46 | the user and header are restored only when both the stored user and a non-empty token exist; loading ends false either way |
| AuthSession.Session.Establish | src/contexts/AuthContext.tsx:55-59 | stores the token and user, sets the user and the bearer header, and leaves the loading flag alone |
| AuthSession.Session.SignUp | src/contexts/AuthContext.tsx:48-86 | success stores the token and user, sets the user and the bearer header; failure raises the mapped message and leaves the session unchanged |
| AuthSession.Session.SignIn | src/contexts/AuthContext.tsx:88-117 | success stores the token and user, sets the user and the bearer header; failure raises the mapped message and leaves the session unchanged |
| AuthSession.Session.Logout | src/contexts/AuthContext.tsx:119-128 | token, stored user, user and header are all cleared |
| AuthSession.SignInSurvivesRestart | src/contexts/AuthContext.tsx:32-46 | after a sign-in, a fresh session loading the stored values restores the same user and header |
| AuthSession.LogoutSurvivesRestart | src/contexts/AuthContext.tsx:32-46 | after a logout, a fresh session restores no user and no header |
| CredentialForms.CheckSignup | src/screens/SignupScreen.tsx:38-50 | logged in exactly when the three fields are non-empty and the passwords match; an empty field gives "Please fill in all fields", a mismatch gives "Passwords do not match", and success clears the error |
| CredentialForms.CheckLogin | src/screens/LoginScreen.tsx:37-45 | logged in exactly when both fields are non-empty, with no other check; otherwise "Please fill in all fields" |
| CredentialForms.EmptinessBeforeMismatch | src/screens/SignupScreen.tsx:39-46 | an empty field is reported even when the passwords also differ |
| CredentialForms.BlankFieldsPass | src/screens/SignupScreen.tsx:39 | any non-empty white-space-only e-mail and password (with a matching confirmation) pass both screens |
| CredentialForms.SignupImpliesLogin | src/screens/LoginScreen.tsx:38 | fields that pass sign-up also pass log-in |

## Left out

- Rendering, navigation, styles and alerts' button handlers are not modelled. The upload form records alerts as a list of texts.
- Network transport, JSON parsing and AsyncStorage failures are not modelled. HTTP replies and stored values are inputs. A read that throws in `loadStoredUser` is not modelled; such a read only leaves the user unset.
- Concurrency, async interleaving and database atomicity are not modelled. Each handler is one sequential step.
- Database errors that would send a route to its 500 branch are not modelled. The exceptions are signup's failed save, which is a flag, and the Outfit schema failure of the first finding.
- ItemId is a `nat`, so a malformed `:id` cannot be represented. In the source such an id makes `findOne`, `findOneAndUpdate` and `findOneAndDelete` throw a CastError, which sends ClothesRoutes.ItemStore.ReadOne, ClothesRoutes.ItemStore.ToggleFavorite, ClothesRoutes.ItemStore.UpdateTags and OutfitRoutes.OutfitStore.Delete to their 500 branch rather than to 404. That 500 is not modelled.
- The version key `__v` is not modelled. Neither the toggle's `save()` nor the tag update's `findOneAndUpdate` changes it, so every reply carries it unchanged.
- OutfitModel.Outfit has no `updatedAt`. Outfits are never updated after they are created, so that stamp always equals `createdAt`.
- The `authenticateUser` middleware and the User model (`hashPassword`, `comparePassword`) are not part of this model. The caller id, the hash and the comparison are parameters.
- bcrypt, `jwt.sign`, background removal (`rembg`), `sharp` compression and the Cloudinary upload are parameters (functions or success flags). The JWT itself is its payload.
- The base64 decoding of `Buffer.from(…, 'base64')` is not modelled. The file written holds the stripped text.
- The BLIP captioning model and spaCy's lemmatiser and part-of-speech tagger are not modelled. The tagger works on a given token list; `Caption` gives only the text normalisation around the decoder.
- `toLowerCase`, `trim`, `str.isalpha` and `\w` are ASCII approximations. Unicode case folding and Unicode white space are not modelled.
- The Tops price sort branch is not modelled, because the sort key is never changed from 'newest'. Date parsing is replaced by integer timestamps.
- Mongo's `.sort('-createdAt')` does not promise an order for equal timestamps. The model uses the same stable descending sort as the Tops screen.
- The generate-image outfit route is commented out in the source and is not modelled.
- Signup's outer catch (500 'Error creating user') is not modelled. It is reached only when the e-mail lookup itself throws, which is a database failure.
- The auth provider rendering its children only when not loading is not modelled.
- How `fetchTagsFromTagger` builds its form data is not modelled. Its two branches (a data: URI read back as a blob, or a file URI) differ only in the request sent; the model starts from the tagger's reply.
- In `pickImage`, a null `asset.base64` is not modelled: the payload is always a string.
- OutfitRoutes.OutfitStore.List and OutfitRoutes.OutfitStore.Delete are modelled under the corrected outfit schema, which stores the owner. As written, the schema declares no `userId` (backend/models/Outfit.js:3-27), so `find({ userId })` and `findOneAndDelete({ _id, userId })` query a path that is never saved. Depending on Mongoose's strictQuery setting, the owner condition is either dropped, so every user's outfits are listed and deletable, or kept, so nothing matches. Neither behaviour is modelled.
- UploadScreen.UploadForm.PickImage: `fetchTagsFromTagger` is called without `await` (src/screens/UploadScreen.tsx:60). The contract describes the state once that call has settled, not when `pickImage` returns. A save pressed while tagging is still running, which would send the old tags, is not modelled.
- UploadScreen.UploadForm.Save: the `uploading` flag is observable only between its set and its reset. The model states that it is back to its old value on every exit, and does not show the intermediate `true`.
- The record stores are sequences of documents in insertion order, not maps keyed by id. A sequence keeps the natural order in which `find` and `findOne` scan, and unique ids are an invariant of each store's `Valid`.

## Findings

| source | as written | input that shows it | evidently intended | confidence | as-written member | corrected member |
|---|---|---|---|---|---|---|
| backend/routes/outfitRoutes.js:42-49 | the route builds an Outfit without prompt or imageUrl, which backend/models/Outfit.js:19-26 require, and sets userId, which the schema does not declare | any POST with top, bottom and shoe set: validation fails, so the handler answers 500 "Server error" and nothing is saved | the outfit is saved with the caller as owner and 201 is returned | not executed | OutfitRoutes.CreateStatusAsWritten | OutfitRoutes.OutfitStore.Create |
| backend/routes/uploadRoutes.js:54-61 | on failure the catch removes only the input and the `-no-bg` file | a request whose compression succeeds and whose upload fails: the `-no-bg-compressed.png` file stays in `temp` | every temporary file is removed on failure too | not executed | UploadRoutes.FailedUploadLeavesCompressedFile | UploadRoutes.UploadService.HandleWithFullCleanup |
| src/contexts/AuthContext.tsx:64-66 | `details.join(', ')` is called on the `details` of any reply; backend/routes/auth.js:40 sends the save error's `errors` there, which is an object when the save fails Mongoose validation | a signup whose save fails Mongoose validation: `details` is the validation `errors` object, `join` is not a function, and the user sees a TypeError instead of the server's message | details are joined only when they are an array, and the message is shown otherwise | not executed | AuthSession.SaveFailureAsWritten | AuthSession.SaveFailureCorrected |
