# quizzllm core, modelled in Dafny

This project models quizzllm, a quiz generator. A user picks a topic and sub-topic from a fixed table. A Python script then scrapes the matching GeeksforGeeks article, cuts it into chunks of three sentences, and asks a T5 model for one question per chunk. An Express server runs that script for the browser, stores each batch of questions in MongoDB with a source tag, and lists earlier batches. Two React pages use the server: the quiz page and the history page.

The model covers four groups of code:

- **The generator scripts** (`backend/main.py`, `main.py`, `backend/main1.py`). This covers:
  - the article table and its lookup;
  - `split_into_chunks`, which all three scripts share;
  - Python's `xs[:n]`, including a negative `n`;
  - the split of the model's output at `<sep>`, with `str.strip`;
  - the list of questions the command-line generator prints;
  - the two routes of the Flask service, which generate every question type at once.

  The scraper, the sentence tokenizer and the T5 model are opaque. They are the function parameters `scrape`, `tokenize` and `generate`.
- **The Express server** (`backend/server1.js`). This covers:
  - registration and login;
  - extraction of the bearer token;
  - the two token middlewares;
  - the two generation routes, with:
    - the command they run;
    - the normalisation of every question to the sentinels "No question", "No answer" and "No context";
    - the source tag they save ("non-pdf" for topics, "pdf" for uploads);
    - the deletion of the uploaded file;
  - the two `GET /api/submissions` routes and the order in which Express tries them.

  The database is the `Store` value. bcrypt, `jwt.sign`/`jwt.verify`, `child_process.exec` and `JSON.parse` are the opaque parameters `hash`/`compare`, `sign`/`verify`, `exec` and `parse`.
- **The quiz page** (`src/Quiz.js`): the sub-topic table, the field check and the request in `handleSubmit`, the handling of each kind of reply, and the reset of the sub-topic when the topic changes. The network is the parameter `fetch`.
- **The history page** (`src/history.js`): the split of the fetched list by `sourceType`.

`EndToEnd` connects the pieces:
- the generator's printed JSON, as the server reads and stores it;
- the server's replies, as the two pages handle them;
- register, then log in, then generate with the token;
- the quiz page's sub-topics, checked against the generator's article table.

Modules follow the program: `Common`, `Text`, `Chunking`, `Articles`, `QuestionGen`, `AllTypesGen`, `JsValues`, `ServerStore`, `Accounts`, `Auth`, `GenerateHandlers`, `Listing`, `History`, `Quiz`, `EndToEnd`.

Behaviour worth knowing, all proved below:

- **A negative count drops chunks from the end.** `chunks[:numQuestions]` with a negative count keeps all but the last `-numQuestions` chunks, because that is how Python slices.
- **The generator ignores half of the quiz page's choices.** Of the 27 sub-topic choices on the quiz page, only 13 name an article in the generator's table. These do not: six OS choices, two DBMS choices, and every Java and JavaScript choice. For them the generator prints an empty list.
- **The quiz page sends no token.** The page sends no `Authorization` header, while `/api/generate-questions` on this server requires one. A complete form therefore always ends with "Failed to fetch questions".
- **The full listing is unreachable.** There are two `GET /api/submissions` routes, and the first (line 156) always replies, so the full listing at line 303 never runs. The history page also sends no token, so it gets a 401 and stays empty.

## Model

| member | source | states |
|---|---|---|
| Text.Strip | backend/main.py:272-275 | The result has no whitespace at either end, and it is a trim of the input: a prefix and a suffix of whitespace were cut, and nothing else changed. |
| Text.TrimIsUnique | backend/main.py:272-275 | Any trim of `s` with no whitespace at either end equals `Strip(s)`, so `str.strip` is determined by the whitespace test alone. |
| Text.StripIdempotent | backend/main.py:272-275 | Stripping twice gives the same as stripping once. |
| Text.Contains | backend/main.py:254 | Python's `pat in s` is true exactly when `pat` occurs at some index of `s`. |
| Text.Split | backend/main.py:269 | `s.split(sep)` (and JavaScript's `split(" ")` at backend/server1.js:120) always yields at least one piece. Text.SplitAtLeftmost and Text.SplitWithoutSeparator determine the pieces, including for a separator that overlaps itself. |
| Text.SplitJoin | backend/main.py:269 | Joining the pieces of `s.split(sep)` with `sep` gives back `s`. |
| Text.SplitPiecesAreSeparatorFree | backend/main.py:269 | No piece of `s.split(sep)` contains `sep`. |
| Text.SplitAtLeftmost | backend/main.py:269 | With `i` the first index where `sep` occurs, the split is `s[:i]` followed by the split of the text after that occurrence, so the scan is leftmost and non-overlapping. |
| Text.SplitWithoutSeparator | backend/main.py:269 | Without an occurrence of `sep`, the split is `[s]`. |
| Text.SplitOverlapping | backend/main.py:269 | A concrete self-overlapping case: `"aaa".split("aa")` is `["", "a"]`. |
| Text.SplitHead | backend/main.py:269-276 | The split has at least two pieces exactly when `sep` occurs. The first piece is the text before the first `sep`. The second is the text between the first and the second `sep`. |
| Chunking.GroupsPartition | backend/main.py:179-182 | The sentence groups of the chunking loop concatenate back to the sentence list. Each group holds 1 to `k` sentences, and every group except the last holds exactly `k`. |
| Chunking.SentenceGroups | backend/main.py:179-182 | The loop makes no group exactly when there are no sentences. Chunking.GroupsPartition and Chunking.ChunkingIsUnique determine the groups completely. |
| Chunking.ChunkingIsUnique | backend/main.py:179-182 | Any grouping of the sentences with those two properties is the loop's grouping. |
| Chunking.GroupCountIsCeiling | backend/main.py:180 | The loop makes ceil(len/k) groups, and none for an empty list. |
| Chunking.GroupStartIsProduct | backend/main.py:180 | Group `j` starts at the `range` index `j * k`. |
| Chunking.GroupIsSlice | backend/main.py:180-181 | Group `j` is the slice of the sentences from its start index to `k` past it, cut at the end of the list. |
| Chunking.GroupSlices | backend/main.py:180-181 | Every group `j` is `sentences[j*k : j*k + k]`. |
| Chunking.SplitIntoChunks | backend/main.py:174-184 | There are ceil(len/k) chunks, and none for no sentences. Chunk `j` is sentences `j*k` up to `j*k + k`, joined with single spaces. `main.py` and `backend/main1.py` define the same function. |
| Chunking.PyPrefix | backend/main.py:265 | `xs[:n]` is a prefix of `xs`. Its length is `min(n, len)` for `n >= 0` and `max(0, len + n)` for negative `n`. |
| Chunking.ForEachChunk | backend/main.py:265-285 | The loop appends exactly one entry per selected chunk, in chunk order. |
| Articles.LookupUrl | backend/main.py:248-250 | `urls.get(topic, {}).get(subTopic)` followed by the falsiness test gives a URL exactly for the pairs in the table, and it is that pair's URL. |
| Articles.KnownNamesAreNonEmpty | backend/main1.py:127 | Every topic and sub-topic in the table is non-empty, so a known pair always passes the falsiness test on its names. |
| QuestionGen.ParseQuestionAnswer | backend/main.py:269-276 | With `<sep>` in the output, the question is the stripped text before the first `<sep>` and the answer the stripped text up to the second. Without it, the question is the whole stripped output and the answer is "". The question never contains `<sep>`. |
| QuestionGen.StripKeepsAbsence | backend/main.py:272 | Stripping cannot create an occurrence of a pattern. |
| QuestionGen.ScrapeFailed | backend/main.py:254 | The failure test holds exactly when "Failed to retrieve content" or "Error occurred" occurs somewhere in the scraped text, so an article that merely mentions either is treated as a failure too. |
| QuestionGen.ScraperFailuresAreRecognised | backend/main.py:210-212 | Both failure texts the scraper returns, whatever status code or exception they carry, pass the failure test at line 254. |
| QuestionGen.QuestionFor | backend/main.py:266-285 | An entry carries the requested type and the chunk as its context. Its question and answer are the `<sep>` split of the model's output for that chunk. |
| QuestionGen.GenerateQuestions | backend/main.py:215-288 | An unknown pair or a failed scrape gives []. Otherwise there is one entry per chunk in `chunks[:numQuestions]`, in order, with the count Python's slice gives. |
| QuestionGen.NothingGeneratedOnMiss | backend/main.py:248-255 | On an unknown pair or a failed scrape, the result is [] whatever the model would say. |
| QuestionGen.NegativeCountDropsFromTheEnd | backend/main.py:265 | With `numQuestions = -1` and three chunks, the model is asked twice, for the first two chunks. |
| AllTypesGen.GenerateAllTypes | backend/main1.py:149-155 | The keys are exactly the four question types. Each key holds one (chunk, output for that type) pair per selected chunk, in chunk order. |
| AllTypesGen.FetchContent | backend/main1.py:127-135 | A missing, empty or unknown category/topic gives "Invalid category or topic". A scrape containing "Failed" or "Error occurred" gives that text as the error. Otherwise the result is the chunks of the scraped article. |
| AllTypesGen.FetchFailed | backend/main1.py:130 | The service's failure test holds exactly when "Failed" or "Error occurred" occurs somewhere in the scraped text. |
| AllTypesGen.FetchFailedIsBroader | backend/main1.py:130 | Every text the generator script rejects, the service rejects too. The text "Failed" is rejected by the service alone. |
| AllTypesGen.FetchAgreesWithGenerator | backend/main1.py:127-132 | On a known pair whose scrape passes the service's test, `/fetch-content` returns exactly the chunks the generator script would use, and the script's own test passes too. |
| AllTypesGen.GenerateQuestionsRoute | backend/main1.py:140-157 | The error "Missing question type or content chunks" happens exactly when `question_type` is missing or empty or there are no chunks. Otherwise the result is the four-type map. |
| AllTypesGen.DefaultIsOneQuestion | backend/main1.py:142 | Without `num_questions`, every type gets exactly one pair, for the first chunk. |
| Accounts.Register | backend/server1.js:71-89 | Differing passwords give 400 "Passwords do not match", checked first. A taken email gives 400 "User already exists". 201 happens exactly when the passwords match and the email is new and non-empty, and then exactly that user is added. A new but empty email fails the schema's required validation on save, which is not caught (`Unhandled`). Every other outcome leaves the store unchanged. |
| Accounts.RegisterAddsOneUser | backend/server1.js:84-88 | A successful registration adds exactly one key, stores the hash of the password, and keeps every other user unchanged. |
| Accounts.RegisterTwiceFails | backend/server1.js:78-81 | Registering the same email again gives 400 and changes nothing. |
| Accounts.RegisterKeepsStoreValid | backend/server1.js:62-66 | Registration keeps every user stored under its own non-empty email. |
| Accounts.Login | backend/server1.js:92-110 | 200 happens exactly when the email is known and `compare` accepts the password against the stored hash, and it carries a token signed for the stored user's email. Every other case, unknown email or wrong password, gets the same 400 "Invalid email or password". Login never writes. |
| Accounts.RegisterThenLogin | backend/server1.js:84-110 | After registering, logging in with the same password yields 200 and a token for that email. |
| Auth.BearerToken | backend/server1.js:119-120 | The token is present exactly when the header contains a space and the text between the first and second space is non-empty, and it is that text. It never contains a space. |
| Auth.BearerRoundTrip | backend/server1.js:120 | The header "scheme token", with a space-free scheme and token, presents exactly `token`. |
| Auth.AuthenticateToken | backend/server1.js:118-134 | No token gives 401 "Access denied. No token provided.". A token that does not verify gives 403 "Invalid token". The payload is granted exactly when the token verifies. |
| Auth.VerifyToken | backend/server1.js:136-150 | Both kinds of failure give 401, with their own messages. It grants exactly the requests `authenticateToken` grants, with the same payload. |
| GenerateHandlers.OrDefault | backend/server1.js:220-222 | `q.field \|\| sentinel` is the field when it is truthy and the sentinel otherwise, so the result is always truthy. |
| GenerateHandlers.NormaliseQuestion | backend/server1.js:219-223 | All three stored fields are truthy. A field that was truthy is kept, and the others become their sentinels. |
| GenerateHandlers.NormaliseIdempotent | backend/server1.js:219-223 | Normalising an already normalised question changes nothing. |
| GenerateHandlers.NormaliseAll | backend/server1.js:219-223 | The map succeeds exactly when no entry is null or undefined. It then keeps the length and order, and normalises each entry. |
| GenerateHandlers.Interpret | backend/server1.js:203-223 | An exec error gives the error branch. The output is parsed exactly when it parses to a value whose `questions` is an array with no null entry. The parsed result is kept with its normalised questions. |
| GenerateHandlers.TopicHandler | backend/server1.js:196-241 | The command always runs first. Exec and parse failures give their own 500 and leave the store unchanged. 200 happens exactly when the output parses, the token carries an email and every question field passes the String cast. Then one "non-pdf" document with that email is saved and appended to the question collection, and the reply is the parsed result. A parsed run that fails validation gets 500 "Error saving questions to database". |
| GenerateHandlers.GenerateRoute | backend/server1.js:196 | A denied token gets the middleware's reply with no effect. A granted token runs the handler as that user. |
| GenerateHandlers.TopicCommandIsInjective | backend/server1.js:200 | When topic, sub-topic and type contain no double quote, two topic requests run the same command exactly when they are the same request. |
| GenerateHandlers.FileCommandIsInjective | backend/server1.js:256 | When the path and the type contain no double quote, two uploads run the same command exactly when they have the same path and request. |
| GenerateHandlers.UploadHandler | backend/server1.js:248-299 | With no `req.user`, the handler throws before any effect. With no file, the reply is 400 and nothing runs. Otherwise the command runs and then the file is deleted, on every path, before any save. 200 happens exactly when the output parses, the user has an email and every question field passes the String cast. Then a "pdf" document is saved to the submissions collection. A parsed run that fails validation gets 500 "Error saving submission to database". |
| GenerateHandlers.UploadRouteAsWritten | backend/server1.js:245-250 | The route as registered always throws: the store is unchanged and the uploaded file is never deleted. |
| GenerateHandlers.UploadRouteAuthenticated | backend/server1.js:245-260 | With `authenticateToken` in front, a denied request has no effect. A granted request is handled exactly as the upload handler handles it for the token's user, so it saves under that email, and with a file it gets a reply and deletes the file exactly once. |
| GenerateHandlers.UploadDeletesOnce | backend/server1.js:259-260 | "Run, delete, then at most a save" deletes the file exactly once. |
| GenerateHandlers.TopicKeepsStoreValid | backend/server1.js:212-218 | Topic generation keeps the question collection all valid "non-pdf" documents. |
| GenerateHandlers.UploadKeepsStoreValid | backend/server1.js:270-274 | Upload generation keeps the submissions collection all valid "pdf" documents. |
| Listing.OwnedBy | backend/server1.js:166-167 | `find({ email })` returns exactly the documents with that email, in insertion order. |
| Listing.OwnedByAppend | backend/server1.js:166-167 | Selecting by owner distributes over concatenation, so the result keeps the collection's order. |
| Listing.OwnedBySingle | backend/server1.js:166-167 | A single document is selected, once, exactly when its email matches. With Listing.OwnedByAppend, this fixes the result as the owner's documents in order, each as often as stored. |
| Listing.OwnedByKeepsTags | backend/server1.js:166-167 | Selecting by owner keeps the documents' source tags. |
| Listing.ListForUser | backend/server1.js:156-178 | `verifyToken`'s 401s. 400 "User email not found in token" for a payload without an email. Otherwise 200 with the payload and never with the documents. |
| Listing.ListForUserCorrected | backend/server1.js:165-173 | The same checks. On 200, the caller's upload documents followed by their topic documents, exactly the caller's documents. |
| Listing.ListingDiscardsDocuments | backend/server1.js:172-173 | A caller with a saved document gets none from the route as written, and that document from the corrected one. |
| Listing.ListAll | backend/server1.js:303-314 | 200 with every upload document, then every topic document, each group in insertion order. |
| Listing.GetSubmissions | backend/server1.js:156-163 | Express tries the routes in order and the first always replies, so every request gets the caller's route and never the full listing. |
| Listing.FirstReply | backend/server1.js:156-158 | Express dispatch over the handlers registered for one method and path: there is a reply exactly when some handler replies, and it is the first such handler's. |
| History.FilterBySource | src/history.js:19-20 | The filter keeps exactly the items with that tag, and only items with that tag. |
| History.FilterAppend | src/history.js:19-20 | Filtering distributes over concatenation, so the input order is kept. |
| History.FilterSingle | src/history.js:19-20 | A single item passes the filter, once, exactly when it carries the tag. With History.FilterAppend, this fixes each list as the items of its tag, in order. |
| History.FilterOfUniform | src/history.js:19-20 | A list all of one tag passes that tag's filter whole, and any other tag's filter not at all. |
| History.FilterPartitions | src/history.js:17-24 | For items tagged "pdf" or "non-pdf", the two lists together hold every item exactly as often as the input. |
| History.FetchHistory | src/history.js:11-28 | A body with `submissions` replaces each list with the items of its tag, in the order of `submissions`, and no item is in both. Any other body, and a failure, leave the page unchanged. |
| Quiz.ParseEntry | src/Quiz.js:43-59 | An object entry keeps a truthy `question`/`answer`, with sentinels otherwise, and has no context. A non-object entry becomes the three sentinels. |
| Quiz.ParseEntries | src/Quiz.js:43-60 | One parsed entry per raw entry, in order. |
| Quiz.ApplyReply | src/Quiz.js:34-70 | The error stays empty only for an ok response with a parsed body. Every error keeps the displayed questions. |
| Quiz.Submit | src/Quiz.js:20-72 | An incomplete form gives "Please select all fields" and sends nothing. Otherwise it sends the fields. Each failure sets its own error and keeps the questions, and a body with a `questions` array replaces them. The fields never change. |
| Quiz.Complete | src/Quiz.js:22 | The form is complete exactly when all four fields are truthy JavaScript strings, as `!topic \|\| !subTopic \|\| !questionType \|\| !numQuestions` tests. |
| Quiz.SubmitForgetsOldError | src/Quiz.js:21 | The previous error never survives a submit. |
| Quiz.OnTopicChange | src/Quiz.js:79-82 | The topic changes, the sub-topic is reset to "", and nothing else changes. |
| Quiz.TopicChangeBlocksSubmit | src/Quiz.js:22-25 | Right after a topic change, a submit sends nothing and asks for all fields. |
| EndToEnd.GeneratorOutputIsStored | backend/server1.js:210-223 | The generator's printed result parses to one stored question per generated one, in order, with empty strings replaced by the sentinels. A missing answer is stored as "No answer". |
| EndToEnd.GeneratedFieldsCast | backend/server1.js:212-223 | The questions the server builds from the generator's printed result parse, and all their fields pass mongoose's String cast. |
| EndToEnd.GeneratorOutputIsSaved | backend/server1.js:203-230 | When the generator's printed result parses back and the token carries an email, the request is answered 200. Exactly one "non-pdf" document with that email is appended to the question collection, and nothing else changes. |
| EndToEnd.QuizIsRefused | src/Quiz.js:28-32 | Without an `Authorization` header, a complete form gets 401 and "Failed to fetch questions", and nothing is generated or saved. |
| EndToEnd.PageAgreesWithDatabase | src/Quiz.js:47-52 | After a successful generation, the page shows one entry per saved question. Every non-sentinel question and answer shown is the saved one. |
| EndToEnd.HistoryOfFullListing | src/history.js:17-24 | For a store the handlers built, splitting the full listing gives back exactly the upload documents and the topic documents, in order. |
| EndToEnd.HistoryIsNeverFilled | src/history.js:13-17 | Without a token the answering route gives 401 with no `submissions`, and the page is unchanged. |
| EndToEnd.HistoryOfCorrectedListing | src/history.js:17-24 | With the corrected caller's route, the page shows exactly the caller's upload and topic documents. |
| EndToEnd.LoginTokenAuthorisesGeneration | backend/server1.js:108-131 | A token from login, sent as "scheme token", authorises generation for the registered email. When the generator's printed result parses back, the reply is 200 and exactly one "non-pdf" document with that email is appended. |
| EndToEnd.OfferedChoicesAndArticles | src/Quiz.js:13-18 | Of the sub-topics the page offers, exactly those listed by `Unmatched` have no article in the generator's table. |
| EndToEnd.UnmatchedChoiceGeneratesNothing | backend/main.py:248-250 | For an unmatched choice, the generator prints an empty list whatever the scraper and the model do. |

## Left out

- Network, HTML parsing, sentence tokenization and the T5 model: opaque parameters (`scrape`, `tokenize`, `generate`), so nothing is claimed about what they return.
- Chunking.SplitIntoChunks: requires a positive chunk size. Every call site passes 3. For other sizes, Python's `range` raises on 0 and yields nothing for a negative step.
- bcrypt, `jwt.sign` and `jwt.verify`: opaque parameters. The signing secret, token expiry and the hash cost factor are not modelled.
- GenerateHandlers.TopicHandler: only part of the mongoose casting is modelled. A plain object or an array in a question field fails validation and gets the 500 reply, as with mongoose's String cast. Not modelled:
  - `numQuestions` is stored as the request's string. A value that fails the `Number` cast would make the save fail with the 500 reply, but the model saves it and answers 200.
  - Numbers and booleans in question fields are stored as those JSON values, not as their string forms.
  - An object with a string `_id`, which mongoose casts to that string, is rejected like any other object.
- GenerateHandlers.UploadHandler: the same casting gaps apply. The unlink throwing on a missing file is also not modelled; the deletion is an effect that always happens.
- Request bodies of the Express routes are strings. Missing fields there, and non-string values such as a NoSQL query object in `email`, are not modelled. For example, `findOne({ email: undefined })` matching an arbitrary user is outside the model.
- Accounts.Register: the database's own errors and the race between two registrations of one email (the unique index) are not modelled. An empty email becomes an unanswered rejection (`Unhandled`), as the handler does not catch it.
- Accounts.Login: the `catch` that answers 500 "Error logging in" on a database error is not modelled, because the store never fails here.
- Listing.ListForUser: the 500 "Error fetching submissions" on a database error is not modelled, for the same reason.
- Listing.OwnedBy: the result order of MongoDB's `find()` (backend/server1.js:166-167 and 305-306) is taken to be insertion order. MongoDB does not promise that order without a sort, so the order stated by Listing.ListAll, Listing.ListForUserCorrected and the history lemmas rests on this assumption.
- Listing.ListAll: the 500 "Error fetching submission history" is left out, for the same reason.
- `createdAt` timestamps and the order of keys in JSON objects are not modelled.
- JavaScript numbers are integers here; fractions and NaN do not occur.
- The command strings are modelled as the text the handler builds. Shell quoting, and injection through the interpolated fields, belong to the opaque `exec`.
- AllTypesGen.GenerateQuestionsRoute: `num_questions` is taken as an already parsed integer. `int()` raising on a non-numeric value, and a non-list `chunks` value, are not modelled.
- The Streamlit page in `main.py` (`main`, lines 154-248) is left out. Its selectbox indexes the topic table as if it were a list of pairs. Only its generation loop (lines 234-240) is modelled, by AllTypesGen.GenerateAllTypes.
- The contact route, `backend/server.js`, the page header, `Cquiz.js` and the routing in `App.js` are outside the core.
- Concurrency between requests is not modelled. Each handler is one atomic step on the store.

## Findings

| source | as written | input that shows it | evidently intended | confidence | as-written member | corrected member |
|---|---|---|---|---|---|---|
| backend/server1.js:245-250 | The upload route has no token middleware, yet line 250, right after reading `req.body`, destructures `req.user`, which is undefined. Every request throws before the file check at line 251, and the file multer stored is never deleted. | Any POST to `/api/upload-and-generate-questions`, with or without a file and a valid token. | `authenticateToken` in front, as on `/api/generate-questions`. A granted request with a file is answered and deletes its file exactly once. | high, not executed | GenerateHandlers.UploadRouteAsWritten | GenerateHandlers.UploadRouteAuthenticated |
| backend/server1.js:172-173 | The caller's listing gathers the caller's documents into `allSubmissions`, then replies with only `{ message, user }`. | A granted request from a user with one saved topic document: the reply holds no documents. | Reply with the gathered documents, uploads first. | high, not executed | Listing.ListingDiscardsDocuments | Listing.ListForUserCorrected |
