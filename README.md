# MODX collaboration platform — a Dafny model of its core

MODX is a platform where students publish projects, apply to and are invited
into them, split the work into tasks and talk in a project chat, with an AI
service that answers questions about the platform and recommends projects.
This project models, in Dafny, the parts of the three programs that decide
what happens:

- the AI service (Python): the model-fallback manager (`ModelManager`), the
  question-answering orchestrator with its tool dispatch and retrieval
  fallback (`LlmService`), the bounded web-research pipeline (`Scraper`) and
  the database query helpers (`DbQueryService`);
- the backend (Node): the project, task, user, admin and message controllers
  (`ProjectController`, `TaskController`, `UserController`,
  `AdminController`, `MessageController`), the recommendation routes and the
  gRPC client with its fallbacks (`Recommendation`, `GrpcClient`), and the
  error handler (`ErrorHandling`);
- the front end (React): the request client (`AxiosInstance`), the login form
  (`LoginForm`), the explore pages (`Explore`, `ExploreAll`), the project card, the
  member and task views (`ProjectMember`, `ProjectTasks`, `MyTaskPanel`,
  `TaskView`), the task charts, the tag input and the admin dashboard.

`Common` holds what several modules share: `Option`, trimming with
JavaScript's and Python's whitespace, decimal text, splitting and joining,
filtering and a stable sort by key.

Components whose fields change in place (the model manager and its chat
sessions, the stores behind each controller, the gRPC client, the page
components) are classes with `modifies` clauses; their methods are proved
against specification functions, and the laws are lemmas about those
functions. Everything outside the program is a parameter: the database
contents are fields or arguments, each language-model backend is an
outcome value per call (a reply or the kind of exception it raises), web
pages and their summaries are given per link, the order in which
concurrent work completes is a permutation argument, and clocks and random
OTPs are arguments.

## Model

| member | source | states |
|---|---|---|
| Common.TrimLeft | MODXX/src/components/TagInput.jsx:10 | only leading white space is removed, and the result does not start with white space |
| Common.TrimRight | MODXX/src/components/TagInput.jsx:10 | only trailing white space is removed, and the result does not end with white space |
| Common.TrimEmptyIff | backend/controller/messageController.js:57-61 | a trimmed text is empty exactly when every character is white space |
| Common.TrimEnds | MODXX/src/components/TagInput.jsx:18-19 | a trimmed text holds only characters of the original and neither starts nor ends with white space |
| Common.NatToDecimal | ai-service/services/scraper.py:94 | the decimal text of a number is digits only, with no leading zero except for 0 itself |
| Common.DecimalRoundTrip | ai-service/services/scraper.py:94 | reading the decimal text of a number back gives the number |
| Common.IntToDecimal | backend/utils/errorHandler.js:9 | a negative number is printed with a leading '-', any other as its decimal digits |
| Common.Split | backend/controller/projectController.js:459 | `split(",")` gives at least one piece and no piece holds the separator |
| Common.SplitJoin | backend/controller/projectController.js:459 | joining the pieces of a split with the separator restores the text |
| Common.JoinSplit | backend/controller/projectController.js:815 | splitting the join of pieces free of the separator gives those pieces back |
| Common.SplitCount | backend/controller/projectController.js:459 | a split has one piece more than the text has separators |
| Common.Filter | MODXX/src/pages/AdminDashboard.jsx:79-91 | the elements that pass, and every element that passes, in the original order |
| Common.FilterAppend | backend/controller/messageController.js:31-33 | filtering distributes over concatenation |
| Common.FilterIsSubsequence | MODXX/src/pages/client/explore.jsx:82-118 | a filtered list is a subsequence of the original |
| Common.SortBy | backend/controller/adminController.js:8 | sorting gives a permutation ordered by the key |
| AdminController.Shown | backend/controller/adminController.js:8 | the listed users are the stored users, one for one, with `passwordHash` deselected |
| AdminController.AllUsers | backend/controller/adminController.js:8-13 | getAllUsers returns as many entries as there are users, a permutation of the hash-free users, ordered by `createdAt` descending |
| AdminController.AllUsersComplete | backend/controller/adminController.js:8 | every user appears in the list without its hash, and every listed entry is some stored user without its hash |
| AdminController.FindUser | backend/controller/adminController.js:25-54 | `findById`: a found position holds that id; nothing is found exactly when no user has it |
| AdminController.RemoveExactly | backend/controller/adminController.js:65 | deleting one user leaves every other user, keeps ids unique, and removes exactly the users with the target's id |
| AdminController.AdminStore.GetAllUsers | backend/controller/adminController.js:6-13 | the response list is AllUsers of the collection and `count` equals the number of users |
| AdminController.AdminStore.PromoteToAdmin | backend/controller/adminController.js:23-32 | 404 and no change for an unknown id; otherwise 200 and only that user's role becomes "admin" |
| AdminController.AdminStore.DeleteUser | backend/controller/adminController.js:52-65 | 404 for an unknown id, 400 and no change when the target is the requesting admin, otherwise 200 and exactly the target is removed |
| AdminDashboard.AsciiLower | MODXX/src/pages/AdminDashboard.jsx:81-82 | `toLowerCase` keeps the length and maps exactly the letters A-Z to a-z |
| AdminDashboard.AsciiLowerIdempotent | MODXX/src/pages/AdminDashboard.jsx:81-82 | lower-casing twice is lower-casing once |
| AdminDashboard.FilteredUsers | MODXX/src/pages/AdminDashboard.jsx:79-85 | a user is listed exactly when the name or email contains the search term ignoring case and the role filter is "all" or the role matches; order is kept |
| AdminDashboard.SearchIgnoresCase | MODXX/src/pages/AdminDashboard.jsx:81-82 | searching for the lower-cased term matches the same users as the term itself |
| AdminDashboard.EmptySearchKeepsAll | MODXX/src/pages/AdminDashboard.jsx:79-85 | with no search text and the role filter "all", every user is listed, in order |
| AdminDashboard.UserStats | MODXX/src/pages/AdminDashboard.jsx:87-91 | total is the number of users and equals admins plus members |
| AdminDashboard.RowActions | MODXX/src/pages/AdminDashboard.jsx:216-225 | promote is never offered to an admin and delete never to the signed-in user |
| AdminDashboard.ShowPromote | MODXX/src/pages/AdminDashboard.jsx:216 | the promote button shows for every user who is not an admin |
| AdminDashboard.ShowDelete | MODXX/src/pages/AdminDashboard.jsx:225 | the delete button shows for every user other than the signed-in admin |
| AxiosInstance.StripTrailingSlashes | MODXX/src/api/axiosInstance.js:8 | the result is a prefix of the URL, everything removed is '/', and the result does not end in '/' |
| AxiosInstance.WithSuffix | MODXX/src/api/axiosInstance.js:8-13 | after the suffix step the URL always ends with "/api/v1" |
| AxiosInstance.GetBaseURL | MODXX/src/api/axiosInstance.js:4-18 | the base URL always ends with "/api/v1/" |
| AxiosInstance.DefaultWhenUnset | MODXX/src/api/axiosInstance.js:5 | an unset or empty VITE_API_URL gives "http://localhost:5000/api/v1/" |
| AxiosInstance.SuffixAddedOnlyWhenMissing | MODXX/src/api/axiosInstance.js:8-15 | "/api/v1" is appended exactly when the slash-stripped URL does not already end with it |
| AxiosInstance.SingleTrailingSlash | MODXX/src/api/axiosInstance.js:8-15 | the base URL ends in exactly one '/' |
| AxiosInstance.StripOneSlash | MODXX/src/api/axiosInstance.js:8 | stripping a URL that ends in one '/' after a non-slash removes just that '/' |
| AxiosInstance.Idempotent | MODXX/src/api/axiosInstance.js:4-18 | normalising an already normalised URL returns it unchanged |
| DbQueryService.Stringified | ai-service/services/db_query_service.py:13-15 | a result keeps its other fields, keeps or lacks `_id` as before, and an `_id` it has becomes text |
| DbQueryService.ExecuteQuery | ai-service/services/db_query_service.py:5-20 | None exactly when the driver raises; otherwise the same number of results in the same order, each with its `_id` stringified |
| DbQueryService.ProjectFilter | ai-service/services/db_query_service.py:27-45 | no filter (no query) exactly when neither skill nor title is truthy; a title-only filter on `title`, a skill-only filter on `requiredSkills`, and an `$and` of exactly those two when both are given |
| DbQueryService.UserFilter | ai-service/services/db_query_service.py:58-76 | no filter exactly when neither role nor interest is truthy; the role by equality on `roles`, the interest by regex on `interest`, and an `$and` of both when both are given |
| DbQueryService.Answer | ai-service/services/db_query_service.py:50-54 | a driver error gives success=false with "Database error occurred." and no data; an empty result gives success=true with the tool's not-found message; otherwise success=true with the results |
| DbQueryService.FindProjects | ai-service/services/db_query_service.py:24-54 | without skill or title: success=false, "Please specify a skill or title to search for.", no data; a query that raises gives success=false, "Database error occurred." and no data; otherwise "No projects found matching your criteria." or "Projects found." with the rows stringified in order |
| DbQueryService.FindUsers | ai-service/services/db_query_service.py:56-85 | the same for users: "Please specify a role or interest to search for." without criteria, success=false with "Database error occurred." and no data when the query raises, "No users found matching your criteria." or "Users found." otherwise |
| DbQueryService.Dumps | ai-service/services/db_query_service.py:28-54 | the serialised envelope is a JSON object: it starts with '{' and ends with '}' |
| ErrorHandling.StatusOf | backend/utils/errorHandler.js:9 | the status is always "fail" or "error" |
| ErrorHandling.StatusByLeadingDigit | backend/utils/errorHandler.js:9 | a positive code is "fail" exactly when its leading decimal digit is 4 |
| ErrorHandling.NonPositiveIsError | backend/utils/errorHandler.js:9 | zero and negative codes are "error" |
| ErrorHandling.HttpClasses | backend/utils/errorHandler.js:9 | codes 400-499 are "fail" and codes 500-599 are "error" |
| ErrorHandling.ErrorHandler.constructor | backend/utils/errorHandler.js:4-10 | the error keeps the message and status code, derives the status from the code, and is operational |
| Explore.FilteredProjects | MODXX/src/pages/client/explore.jsx:82-118 | a project is listed exactly when the signed-in user does not lead it and it passes the skill filter ("Other": no skills or only unknown ones; another value: that exact skill listed; empty: everything); order is kept |
| Explore.FilteredIsSubsequence | MODXX/src/pages/client/explore.jsx:82-118 | the two filter passes yield a subsequence of the fetched projects |
| Explore.FirstLineLength | MODXX/src/pages/client/explore.jsx:6 | the span `.*` can cover: no line terminator inside, and a terminator right after it unless it reaches the end |
| Explore.CutPoint | MODXX/src/pages/client/explore.jsx:6 | the end of the greedy match `^.*[\\\/]`: right after a separator, with no separator after it in the first line |
| Explore.FileName | MODXX/src/pages/client/explore.jsx:6 | what remains after the replace is a suffix of the path |
| Explore.FileNameOfPath | MODXX/src/pages/client/explore.jsx:6 | of a one-line "dir/name" path exactly the name remains, and a bare name is kept whole |
| Explore.ImageUrl | MODXX/src/pages/client/explore.jsx:2-7 | "" for a missing or empty path, an "http" URL unchanged, otherwise a URL under API_URL + "/uploads/" ending in a suffix of the stored path |
| Explore.UploadUrl | MODXX/src/pages/client/explore.jsx:2-16 | an upload stored as "dir/name" is served at API_URL + "/uploads/" + name |
| Explore.CanApply | MODXX/src/pages/client/explore.jsx:203-207 | apply is offered exactly when the project is neither an accepted nor a pending membership nor applied to on this page |
| Explore.IsMember | MODXX/src/pages/client/explore.jsx:203 | a card is a membership when its id is among the accepted ones |
| Explore.IsPending | MODXX/src/pages/client/explore.jsx:204-206 | a card is pending when its id is among the pending applications or those applied for on this page |
| Explore.ExplorePage.HandleApply | MODXX/src/pages/client/explore.jsx:120-134 | a successful request appends the project id to the applied list; a failed one changes nothing |
| Explore.ApplyMarksPending | MODXX/src/pages/client/explore.jsx:203-207 | after a successful apply the project shows as pending and cannot be applied to again, while every other project keeps its state |
| ExploreAll.Slice | MODXX/src/pages/client/ExploreAll.jsx:98 | `slice(start, end)` yields the part of [start, end) inside the list, and nothing past its end |
| ExploreAll.WithoutOwn | MODXX/src/pages/client/ExploreAll.jsx:45-47 | a project is kept exactly when no user is signed in or the user does not lead it |
| ExploreAll.Shown | MODXX/src/pages/client/ExploreAll.jsx:96-101 | `page` pages show min(page * 9, length) projects |
| ExploreAll.NextPageExtends | MODXX/src/pages/client/ExploreAll.jsx:95-102 | adding the next slice to what `page` pages show gives what `page + 1` pages show |
| ExploreAll.EmptySliceAtEnd | MODXX/src/pages/client/ExploreAll.jsx:98-106 | the next slice is empty exactly when the shown pages already cover the list, and then everything is shown |
| ExploreAll.ExploreAllPage.constructor | MODXX/src/pages/client/ExploreAll.jsx:18-25 | the initial state: nothing loaded, page 1, more to load, not loading, nothing applied |
| ExploreAll.ExploreAllPage.InitialLoad | MODXX/src/pages/client/ExploreAll.jsx:35-68 | with a signed-in user, the list without the user's own projects is loaded, its first nine are shown and `hasMore` says whether there are more; a failed request clears only the list; the page counter is left as it was |
| ExploreAll.ExploreAllPage.Reload | MODXX/src/pages/client/ExploreAll.jsx:35-68 | the load with the counter reset to 1 and nothing shown after a failure: it keeps "what is shown is the first pages of the list" |
| ExploreAll.ExploreAllPage.LoadMore | MODXX/src/pages/client/ExploreAll.jsx:88-110 | nothing happens while loading or when nothing is left; otherwise a non-empty next slice is appended and the page advances, an empty one only switches `hasMore` off; the prefix invariant is kept |
| ExploreAll.ExploreAllPage.HandleApply | MODXX/src/pages/client/ExploreAll.jsx:135-143 | a successful request appends the id and leaves the list and the pages alone |
| ExploreAll.StaleCounterSkips | MODXX/src/pages/client/ExploreAll.jsx:63-101 | with a stale page counter, loading more after a new load shows the tenth entry from the wrong page, so what is shown is not a prefix of the list |
| ExploreAll.AppliedIsPending | MODXX/src/pages/client/ExploreAll.jsx:232-234 | a project applied to from the page shows as pending |
| GrpcClient.Check | backend/grpcClient.js:45-77 | the answer is always the new flag; within 30000 ms of the last probe the state is kept and the cached flag returned; otherwise the probe time becomes `now`, a client exists afterwards if one existed or creation succeeded, and the flag is true exactly when there is a client and the probe succeeds |
| GrpcClient.Fallback | backend/grpcClient.js:83-96 | unavailable: the fallback, without calling; available and replied: the reply; available and thrown: the fallback, with the flag set false and the probe time kept |
| GrpcClient.ProbeThrottled | backend/grpcClient.js:45-51 | within 30 seconds after a probe, a second check probes nothing and returns the cached flag, whatever the service would say |
| GrpcClient.FailureHoldsUntilNextProbe | backend/grpcClient.js:91-94 | after a failed call, every call until the next probe is due returns its fallback without reaching the service |
| GrpcClient.NoIds | backend/grpcClient.js:131-163 | the fallback `{ recommended_ids: [] }` extracts to no project ids |
| GrpcClient.AiClient.constructor | backend/grpcClient.js:13-15 | at start the flag is false, no probe has run, and a client exists exactly when the one creation succeeded |
| GrpcClient.AiClient.CheckHealth | backend/grpcClient.js:45-77 | the new state and the answer are those of Check |
| GrpcClient.AiClient.CallWithFallback | backend/grpcClient.js:83-96 | the new state and the value are those of Fallback |
| GrpcClient.AiClient.RankIds | backend/grpcClient.js:117-165 | the recommendation, related-project and search calls fall back to an empty id list |
| GrpcClient.AiClient.ChatbotResponse | backend/grpcClient.js:101-114 | the chatbot call falls back to the fixed apology |
| GrpcClient.AiClient.TriggerIndexing | backend/grpcClient.js:167-182 | a reply yields its status, or "success" when the status is empty; the fallback is the skip note |
| GrpcClient.AiClient.DeleteProjectFromIndex | backend/grpcClient.js:184-202 | the deletion call falls back to the skip note |
| LoginForm.FirstAt | MODXX/src/pages/login.jsx:42 | the position of the first '@', or the length when there is none |
| LoginForm.ValidateEmail | MODXX/src/pages/login.jsx:41-44 | the one-scan check accepts exactly the strings the pattern /^[^\s@]+@[^\s@]+\.[^\s@]+$/ matches |
| LoginForm.PatternIff | MODXX/src/pages/login.jsx:42 | the scan accepts a string exactly when the pattern matches it, in both directions |
| LoginForm.ScanGivesPattern | MODXX/src/pages/login.jsx:42 | a scan-accepted string has a match of the pattern |
| LoginForm.PatternGivesScan | MODXX/src/pages/login.jsx:42 | a string the pattern matches is accepted by the scan |
| LoginForm.RejectsEmptyAndSpaces | MODXX/src/pages/login.jsx:42 | the empty string and any string holding white space are rejected |
| LoginForm.ExactlyOneAt | MODXX/src/pages/login.jsx:42 | an accepted address holds exactly one '@' |
| LoginForm.IsFormValid | MODXX/src/pages/login.jsx:46-48 | the form is valid exactly when both fields are non-empty and the e-mail matches the pattern |
| LoginForm.HandleSubmit | MODXX/src/pages/login.jsx:50-73 | an invalid form shows "Please check your email format" and sends nothing; a valid one sends the request and stops loading; navigation to "/dashboard" happens only for a valid form and an accepted login, and an error is shown exactly when there is no navigation |
| MessageController.Thread | backend/controller/messageController.js:31-33 | a project's thread is a permutation of that project's messages, ordered by `sentAt` ascending; a message is in it exactly when it is stored under that project |
| MessageController.Allowed | backend/controller/messageController.js:6-17 | a user may read and post exactly when there is an accepted membership of that user in that project or the user leads the project |
| MessageController.ThreadAfterPost | backend/controller/messageController.js:71-76 | a post adds exactly the new message to its own project's thread and leaves every other thread unchanged |
| MessageController.Views | backend/controller/messageController.js:32-42 | the response exists exactly when every sender still exists; it maps each message, in order, to its id, sender id, sender name, text and time |
| MessageController.StoredText | backend/controller/messageController.js:57-74 | a text is rejected exactly when it is missing or trims to "" |
| MessageController.StoredTextClean | backend/controller/messageController.js:74 | a stored text is non-empty, neither starts nor ends with white space, and holds only characters of the posted text |
| MessageController.StoredTextIdempotent | backend/controller/messageController.js:74 | trimming a stored text again leaves it unchanged |
| MessageController.BlankRejected | backend/controller/messageController.js:57 | a text made only of white space is rejected |
| MessageController.AppendKeepsIds | backend/controller/messageController.js:71 | giving a new message the next id keeps every id below the counter |
| MessageController.MessageStore.Append | backend/controller/messageController.js:71-76 | `Message.create` appends one message with the next id and changes nothing else |
| MessageController.MessageStore.GetProjectMessages | backend/controller/messageController.js:20-48 | 403 with nothing unless the user is an accepted member or the leader; 500 when a sender is missing; otherwise 200 with the views of the ordered thread |
| MessageController.MessageStore.PostProjectMessage | backend/controller/messageController.js:52-81 | 400 for a missing or blank text before any membership lookup, 403 for an outsider, both without storing; otherwise 200 and exactly one message from the requester, holding the trimmed text and the current time, is appended |
| ModelManager.CreateModel | ai-service/core/model_manager.py:68-82 | the model has the requested name; it carries tools exactly when tools and a system instruction are both given, and then exactly those tools; the instruction is kept only when given |
| ModelManager.FirstCreatable | ai-service/core/model_manager.py:50-63 | the first position at or after `from` whose model can be built, with every earlier one failing; none exactly when every remaining build fails |
| ModelManager.Range | ai-service/core/model_manager.py:112 | the list positions from `lo` up to `hi`, in order |
| ModelManager.WalkAnswered | ai-service/core/model_manager.py:112-120 | an answer from the fallback loop comes from the first entry that builds and answers, and the cursor names it |
| ModelManager.WalkRaised | ai-service/core/model_manager.py:112-127 | when the loop finds no answer, every remaining entry failed, the last entry's failure is raised, and the cursor rests on the last entry that could be built or stays put |
| ModelManager.AttemptFacts | ai-service/core/model_manager.py:101-127 | the cursor never moves back; a working current model answers and nothing moves; otherwise the answer comes from the first later entry that builds and answers; on total failure the raised error is the last entry's |
| ModelManager.ChatWalkAnswered | ai-service/core/model_manager.py:168-179 | an answer from the chat fallback loop comes from the first entry whose model builds, whose chat starts and which answers; the manager's cursor and the chat both move to it |
| ModelManager.ChatWalkRaised | ai-service/core/model_manager.py:168-186 | when the chat fallback finds no answer, the last entry's failure is raised and the manager's cursor never moves back |
| ModelManager.ModelManager.constructor | ai-service/core/model_manager.py:42-45 | the manager keeps its tools and instruction and starts with no model |
| ModelManager.ModelManager.Initialize | ai-service/core/model_manager.py:48-66 | success exactly when some entry can be built; the first such entry becomes current without any generate call; otherwise (RuntimeError) nothing changes |
| ModelManager.ModelManager.SwitchTo | ai-service/core/model_manager.py:115-116 | a fallback step makes the model built from entry `j` current and names `j` |
| ModelManager.ModelManager.GenerateContent | ai-service/core/model_manager.py:93-127 | outcome and new cursor are those of Attempt; on failure of the current model exactly the entries after it are tried, in list order, each once, up to the one that answered or the end |
| ModelManager.ChatSession.constructor | ai-service/core/model_manager.py:150-152 | a chat starts on the manager's current model |
| ModelManager.ChatSession.SendMessage | ai-service/core/model_manager.py:154-186 | the chat's own model answers first with nothing moving; otherwise the fallback walks the entries after the manager's current cursor in order, each once, moving the manager's cursor on every build and the chat on every started chat |
| MyTaskPanel.OwnTasks | MODXX/src/components/MyTaskPanel.jsx:17-20 | a task is shown exactly when it is in the project's list and assigned to the signed-in user; the shown list keeps the fetched order |
| MyTaskPanel.MarkedDone | MODXX/src/components/MyTaskPanel.jsx:36-38 | same length; the task with that id gets status "done", every other task is kept as it was |
| MyTaskPanel.MarkDoneIdempotent | MODXX/src/components/MyTaskPanel.jsx:36-38 | marking the same task done twice gives the list after the first mark |
| MyTaskPanel.MarkDoneKeepsOwnership | MODXX/src/components/MyTaskPanel.jsx:20-38 | a list of the user's own tasks stays a list of the user's own tasks after a mark-done |
| MyTaskPanel.ShowMarkDone | MODXX/src/components/MyTaskPanel.jsx:73 | the "Mark as Done" button shows for every task whose status is not "done" |
| MyTaskPanel.TaskPanel.constructor | MODXX/src/components/MyTaskPanel.jsx:7-9 | no tasks, no error, loading |
| MyTaskPanel.TaskPanel.Fetch | MODXX/src/components/MyTaskPanel.jsx:13-25 | a successful fetch shows the user's own tasks; a failed one keeps the tasks and sets "Failed to fetch tasks"; loading ends |
| MyTaskPanel.TaskPanel.HandleMarkDone | MODXX/src/components/MyTaskPanel.jsx:29-43 | a successful PATCH marks the task done and clears the error; a failed one keeps the tasks and sets "Failed to update task"; loading ends |
| ProjectCard.CardImageUrl | MODXX/src/components/ProjectCard.jsx:19-24 | a missing or empty path gives the placeholder image; a path starting with "http" is returned unchanged |
| ProjectCard.RelativeJoin | MODXX/src/components/ProjectCard.jsx:22-23 | any other path is appended to BASE_URL, which ends in exactly one '/', after dropping its leading '/', and the result ends with that path |
| ProjectCard.DropSlash | MODXX/src/components/ProjectCard.jsx:22 | exactly one leading '/' is removed when present, and nothing else changes |
| ProjectCard.Action | MODXX/src/components/ProjectCard.jsx:124-141 | members see "Authorized"; others see an Apply button that is disabled and captioned "Syncing..." exactly when the application is pending, "Apply" otherwise |
| ProjectCard.BadgesExclusive | MODXX/src/components/ProjectCard.jsx:124-141 | the "Joined" and "Pending" badges never show together, and an enabled "Apply" button shows exactly when the viewer is neither a member nor pending |
| ProjectCard.ShowPendingBadge | MODXX/src/components/ProjectCard.jsx:74 | the "Pending" badge shows for a pending application of a non-member |
| ProjectController.FindProject | backend/controller/projectController.js:66-70 | the project with that key, if any; none exactly when no project has it |
| ProjectController.FindPair | backend/controller/projectController.js:76-80 | a row of that (project, member) pair when one exists; none exactly when the pair has no row |
| ProjectController.FindRow | backend/controller/projectController.js:353-361 | a row with that key in that project; none only when no row matches both |
| ProjectController.FindUser | backend/controller/projectController.js:537-547 | the first user with that email; none exactly when no user has it |
| ProjectController.SetStatus | backend/controller/projectController.js:407-410 | the selected rows get the new status, every other row is kept, and no key column changes |
| ProjectController.PromoteMentor | backend/controller/projectController.js:709-712 | exactly the accepted rows of that (project, member) pair become mentor rows; keys unchanged |
| ProjectController.MarkRated | backend/controller/projectController.js:657-660 | the rows of that pair are marked rated with the given rating; everything else unchanged |
| ProjectController.DeleteRow | backend/controller/projectController.js:185-188 | a row survives exactly when it is not the one with that key in that project; survivors keep their order |
| ProjectController.AddRole | backend/controller/projectController.js:715-718 | the role is appended to that user's roles only when absent; every other user is unchanged |
| ProjectController.AddRoleIdempotent | backend/controller/projectController.js:715-718 | after the update the user holds the role, and a second update changes nothing |
| ProjectController.CountsSetStatus | backend/controller/projectController.js:407-410 | a status update never changes the mentor count and raises a project's accepted count by at most the rows it selects there |
| ProjectController.CountsPromote | backend/controller/projectController.js:709-712 | a promotion never changes accepted counts and adds at most that pair's rows to the project's mentor count |
| ProjectController.CountsMarkRated | backend/controller/projectController.js:657-660 | recording a rating changes neither count |
| ProjectController.CountsFilter | backend/controller/projectController.js:185-188 | deleting rows never raises a count |
| ProjectController.WithIdUnique | backend/controller/projectController.js:407-410 | with unique row keys, a key selects at most one row, and none outside its own project |
| ProjectController.PairCountUnique | backend/models/ProjectMember.js:34-36 | with the unique (project, member) index a pair has at most one row |
| ProjectController.FilterUnique | backend/controller/projectController.js:185-188 | deleting rows keeps both unique indexes |
| ProjectController.InsertUnique | backend/controller/projectController.js:884-887 | a row with a fresh key and a new pair keeps both unique indexes |
| ProjectController.LimitsAfterChange | backend/controller/projectController.js:86-94 | capacity, the two-mentor limit and the six-project limit survive a member-table change that raises counts only in one project, and there only up to its limits |
| ProjectController.NewProjectKeys | backend/controller/projectController.js:470-495 | a project with the next key and its leader row with the next row key keep every key valid |
| ProjectController.NewProjectLimits | backend/controller/projectController.js:445-495 | a new project with room for its leader keeps every limit when its creator leads fewer than six projects |
| ProjectController.StripBraces | backend/controller/projectController.js:814-823 | the characters of the text other than '{' and '}' remain, in their order, each as often as in the text: a subsequence whose length is the text's less its braces |
| ProjectController.BraceCount | backend/controller/projectController.js:814-823 | dropping the braces shortens the text by exactly its number of '{' and '}' |
| ProjectController.TrimAll | backend/controller/projectController.js:816-825 | every piece is trimmed of JavaScript white space, one for one |
| ProjectController.FormatColumn | backend/controller/projectController.js:808-828 | an array column is passed through unchanged, a value that is neither array nor text becomes []; a text column becomes, in order, exactly the non-empty trimmed comma pieces of the text without braces: a subsequence of the pieces holding each non-empty one, as many items as there are non-empty pieces, each free of commas and braces and starting and ending with a non-space character |
| ProjectController.TrimmedPieceShape | backend/controller/projectController.js:814-817 | a non-empty trimmed piece of a comma split holds only characters of the text other than ',' and starts and ends with a non-space character |
| ProjectController.ArrayTextRoundTrip | backend/controller/projectController.js:808-828 | a column that arrives as the Postgres array text of plain items is shown as exactly those items, the same as if it had arrived as an array |
| ProjectController.CommaList | backend/controller/projectController.js:458-464 | an absent or empty text gives []; otherwise one item per comma plus one, item i being the i-th comma piece trimmed, none holding a comma |
| ProjectController.EffectiveMax | backend/controller/projectController.js:482 | an absent or zero `maxMembers` gives 8; any other value is kept |
| ProjectController.UniqueKeyInProject | backend/controller/projectController.js:371-374 | with unique row keys, `WHERE id = $1` alone selects exactly the row found in the project |
| ProjectController.SelfAcceptOverfills | backend/controller/projectController.js:365-378 | a full project with an open invitation is pushed over capacity when the invited member accepts |
| ProjectController.ProjectStore.constructor | backend/controller/projectController.js:421 | empty tables, keys and limits valid |
| ProjectController.ProjectStore.InviteMember | backend/controller/projectController.js:60-105 | 403 for a non-leader, 409 for an existing pair, 403 when full, otherwise one new invited member row; keys and limits preserved |
| ProjectController.ProjectStore.InsertRow | backend/controller/projectController.js:884-887 | appending a row with the next key and a new pair keeps the keys valid and the limits |
| ProjectController.ProjectStore.ApplyToProject | backend/controller/projectController.js:837-897 | 400 for an accepted or pending row, 404 for a missing project, 400 for the leader or a full project, 500 when an invitation row makes the insert break the unique index, otherwise one new pending member row; limits preserved |
| ProjectController.ProjectStore.AcceptJoinRequest | backend/controller/projectController.js:134-167 | 403 for a non-leader or a full project; otherwise the row with that key in the project is accepted whatever its prior status; limits preserved |
| ProjectController.ProjectStore.ApplyStatus | backend/controller/projectController.js:407-410 | a status update of rows in one project, accepting only when there is room, keeps keys and limits |
| ProjectController.ProjectStore.RejectJoinRequest | backend/controller/projectController.js:170-193 | 403 for a non-leader; otherwise the row with that key in the project is deleted; limits preserved |
| ProjectController.ProjectStore.GetPendingRequests | backend/controller/projectController.js:313-343 | 403 for a non-leader; otherwise exactly the project's pending rows, in table order |
| ProjectController.ProjectStore.UpdateMembershipStatus | backend/controller/projectController.js:346-420 | as written: 404 for no row; the invited member may accept their own invitation with no capacity check; otherwise leader only, capacity checked only for "accepted", an unknown status refused by the table |
| ProjectController.ProjectStore.UpdateMembershipStatusChecked | backend/controller/projectController.js:346-420 | the same outcomes with the capacity check also on the self-accept path, which keeps the limits |
| ProjectController.ProjectStore.LeaderSetsStatus | backend/controller/projectController.js:380-415 | 403 for a non-leader, 403 when accepting into a full project, 500 for a status outside the enumeration, otherwise the row gets the new status; limits preserved |
| ProjectController.ProjectStore.CreateProject | backend/controller/projectController.js:425-514 | 403 once the creator leads six projects; otherwise 201 with the next key, the parsed skill and stack lists, `maxMembers` or 8, an accepted leader row, and "leader" added to the creator's roles if absent; limits kept when the maximum is at least 1 |
| ProjectController.ProjectStore.AddProjectMember | backend/controller/projectController.js:517-582 | 403 for a non-leader, 404 for an unknown email, 403 when full, 409 when the pair exists, otherwise one new accepted member row; limits preserved |
| ProjectController.ProjectStore.SubmitProjectRating | backend/controller/projectController.js:623-671 | 400 for a rating outside 1..5, 403 unless the requester is an accepted member who has not rated, otherwise the row is marked rated with that rating |
| ProjectController.ProjectStore.AddMentorRole | backend/controller/projectController.js:674-727 | 403 for a non-leader or a project with two mentor rows; otherwise the accepted row is promoted and "mentor" added to the user's roles if absent; the two-mentor limit preserved |
| ProjectMember.ParseStatus | backend/models/ProjectMember.js:20-24 | a text denotes a status exactly when it is one of "pending", "invited", "accepted", and then that status |
| ProjectMember.ParseRole | backend/models/ProjectMember.js:15-19 | a text denotes a role exactly when it is one of "leader", "mentor", "member", and then that role |
| ProjectMember.NewRow | backend/models/ProjectMember.js:15-28 | a new row gets role "member" and status "pending" unless given, and is not rated |
| ProjectMember.InsertKeepsUnique | backend/models/ProjectMember.js:35-36 | inserting a row keeps the (project, member) index unique exactly when the pair is new |
| ProjectTasks.FindMember | MODXX/src/components/ProjectTasks.jsx:19 | the first member whose id equals the viewer's id; none exactly when no member has it |
| ProjectTasks.MyRole | MODXX/src/components/ProjectTasks.jsx:19-20 | the role of the first member whose id is the viewer's; none when no member has that id |
| ProjectTasks.ShowAssignForm | MODXX/src/components/ProjectTasks.jsx:71-76 | a boolean prop decides when given; otherwise the form shows exactly for a leader or mentor |
| ProjectTasks.VisibleTasks | MODXX/src/components/ProjectTasks.jsx:77-80 | a viewer who is not a plain member sees every task; a signed-in plain member sees, in the list's order, exactly the tasks assigned to them; with nobody signed in a plain member sees [] when there are no tasks, and reading the id throws otherwise |
| ProjectTasks.ShowMarkDone | MODXX/src/components/ProjectTasks.jsx:151-153 | the "Mark as Done" button shows for a plain member on an open task assigned to them; MarkDoneOnlyOnVisible ties it to the visible list |
| ProjectTasks.MarkDoneOnlyOnVisible | MODXX/src/components/ProjectTasks.jsx:150-160 | every task offered a "Mark as Done" button is one the member sees |
| ProjectTasks.LeadersSeeEverything | MODXX/src/components/ProjectTasks.jsx:71-80 | a leader or mentor sees every task and, with no prop, the assignment form |
| ProjectTasks.TaskForm.constructor | MODXX/src/components/ProjectTasks.jsx:9-16 | the form starts with four empty fields and no error |
| ProjectTasks.TaskForm.HandleSubmit | MODXX/src/components/ProjectTasks.jsx:43-55 | a created task clears all four fields and the error; a failure keeps the fields and sets "Failed to create task" |
| Recommendation.SecondPiece | backend/controller/recommendation.controller.js:17 | `split("_")[1]` of a "project_" id is the text after the prefix up to the next underscore, and holds no underscore |
| Recommendation.ExtractFrom | backend/controller/recommendation.controller.js:15-18 | at most one id per item; every id kept is non-empty, accepted by `isValid` and free of underscores; ExtractIsThreePasses states exactly which ids, in which order |
| Recommendation.Pieces | backend/controller/recommendation.controller.js:17 | the map pass: one id per reference, position for position, the text between the first and the second underscore |
| Recommendation.ExtractIsThreePasses | backend/controller/recommendation.controller.js:15-18 | the one-pass extraction equals filter "project_" references, map to the id part, filter non-empty valid ids: exactly those ids, in item order |
| Recommendation.ExtractProjectIds | backend/controller/recommendation.controller.js:13-19 | a value that is not an array gives []; an array gives the filter, map, filter pipeline of its items: in order, the id part of every "project_" reference that is non-empty and valid, each free of underscores |
| Recommendation.ExtractDocIds | backend/controller/recommendation.controller.js:13-19 | extraction undoes the "project_" + id document format: valid ids without an underscore come back all, in order |
| Recommendation.ExtractSkipsOthers | backend/controller/recommendation.controller.js:16 | items that are missing or lack the "project_" prefix never yield an id |
| Recommendation.Lookup | backend/controller/recommendation.controller.js:28 | the stored project with that id; none exactly when no stored project has it |
| Recommendation.Fetch | backend/controller/recommendation.controller.js:22-32 | at most one project per id, each stored and asked for; every id that is stored yields its project |
| Recommendation.FetchAppend | backend/controller/recommendation.controller.js:51-59 | fetching the first six ids and then the rest is fetching all of them |
| Recommendation.FetchAllFound | backend/controller/recommendation.controller.js:30-31 | when every id is stored, the result is exactly their projects, in the order of the ids |
| Recommendation.NewestFirst | backend/controller/recommendation.controller.js:67-70 | a permutation of the projects, newest first |
| Recommendation.RecommendForUser | backend/controller/recommendation.controller.js:35-94 | 404 for an unknown user; otherwise the fetched ranked projects, or every project newest first when the AI call threw or nothing was found |
| Recommendation.Ids | backend/controller/recommendation.controller.js:126 | the ids of the projects, one for one |
| Recommendation.RelatedIds | backend/controller/recommendation.controller.js:116-118 | the extracted ranking without the current project's id |
| Recommendation.RecommendRelated | backend/controller/recommendation.controller.js:97-144 | 400 for an invalid id, 404 for a missing project, otherwise "top" is the fetched ranking without the current project |
| Recommendation.RelatedPartition | backend/controller/recommendation.controller.js:116-132 | "top" and "other" never show the current project, never share a project, and together with the current project cover every stored project |
| Recommendation.OthersPartition | backend/controller/recommendation.controller.js:124-132 | "other" is every stored project except the current one and those in "top" |
| Recommendation.OthersExcluded | backend/controller/recommendation.controller.js:128-132 | "other" holds exactly the stored projects whose id is not excluded |
| Recommendation.SearchByQuery | backend/controller/recommendation.controller.js:147-167 | 400 for a missing or empty query; otherwise the fetched ranking |
| Scraper.Take | ai-service/services/scraper.py:25-46 | Python's `[:n]`: the first `n` items, or all of them when there are fewer |
| Scraper.TopSearchLinks | ai-service/services/scraper.py:14-29 | [] on a request error; otherwise at most `num_links` links, the hrefs of the first anchors in order, and a raise exactly when one of those anchors has no href |
| Scraper.ScrapePage | ai-service/services/scraper.py:31-49 | "" on a request error; never more than 4000 characters; a raise exactly when the page has no main, article or body; the paragraphs of main, else of article, else of body, joined by spaces and cut to 4000 |
| Scraper.Summarize | ai-service/services/scraper.py:51-61 | "" for an empty text without asking the model; the stripped reply; the non-empty fixed message when the model fails |
| Scraper.Sections | ai-service/services/scraper.py:92-94 | the "Source n" blocks of the non-empty summaries, n being the summary's position plus one; SectionsEmptyIff and SectionListed state what it holds |
| Scraper.SectionsEmptyIff | ai-service/services/scraper.py:91-94 | the sections are empty exactly when every summary is empty |
| Scraper.Report | ai-service/services/scraper.py:91-99 | all summaries empty gives the "could not extract" message; otherwise the header followed by the sections, longer than the header |
| Scraper.SectionListed | ai-service/services/scraper.py:92-94 | every non-empty summary appears in the report under "Source n", n its own position plus one |
| Scraper.NumberingSkips | ai-service/services/scraper.py:92-94 | an empty summary still uses up its number: with the first summary empty the second is labelled "Source 2" |
| Scraper.Consolidate | ai-service/services/scraper.py:91-99 | the consolidation loop builds exactly the Report of the summaries |
| Scraper.PageTexts | ai-service/services/scraper.py:83-84 | one scraped text per link, and a raise exactly when some page raises |
| Scraper.Summaries | ai-service/services/scraper.py:87-88 | one summary per scraped text, position i holding the summary of the text that finished i-th |
| Scraper.ScrapeForInfo | ai-service/services/scraper.py:66-99 | no links gives the "couldn't find" message; a raise from the search or any page propagates; otherwise the result is the Report of one summary per link, in completion order |
| TagInput.WithoutIndex | MODXX/src/components/TagInput.jsx:28-30 | a position inside the list removes exactly that tag and keeps the others in order; any other position changes nothing |
| TagInput.TagsAfterKey | MODXX/src/components/TagInput.jsx:9-26 | a key leaves the tags alone, appends the trimmed input, or drops the last tag; it appends only on Enter with a non-blank input |
| TagInput.InputAfterKey | MODXX/src/components/TagInput.jsx:9-26 | a key leaves the input alone or clears it, and clears it only when the trimmed input was appended |
| TagInput.EnterRejected | MODXX/src/components/TagInput.jsx:10-21 | Enter with a full list, or with a value that is already a tag, changes neither the tags nor the input |
| TagInput.EnterAppends | MODXX/src/components/TagInput.jsx:10-21 | otherwise Enter appends the trimmed value, which starts with a non-space character, and clears the input |
| TagInput.BackspaceRemovesLast | MODXX/src/components/TagInput.jsx:22-25 | Backspace on an empty input removes exactly the last tag |
| TagInput.KeyKeepsInvariant | MODXX/src/components/TagInput.jsx:9-26 | key handling keeps the tags distinct and within `maxTags` |
| TagInput.RemoveKeepsDistinct | MODXX/src/components/TagInput.jsx:28-30 | removing by position keeps the tags distinct |
| TagInput.TagEditor.constructor | MODXX/src/components/TagInput.jsx:5-6 | the editor starts with the given tags and limit and an empty input |
| TagInput.TagEditor.SetInput | MODXX/src/components/TagInput.jsx:58-66 | typing replaces the input and leaves the tags alone |
| TagInput.TagEditor.HandleKeyDown | MODXX/src/components/TagInput.jsx:9-26 | the new tags and input are those of the key rules; distinct tags within the limit stay so |
| TagInput.TagEditor.RemoveTag | MODXX/src/components/TagInput.jsx:28-30 | the tag at that position is removed, the input kept; distinct tags stay distinct |
| TaskCharts.MemberLabel | MODXX/src/components/ProjectTaskCharts.jsx:71-81 | the member's name when truthy, else the full name when truthy, else "User"; never empty |
| TaskCharts.IsAssigned | MODXX/src/components/ProjectTaskCharts.jsx:59-66 | a task belongs to a member when its assignee strictly equals the member's id, e-mail, name or full name |
| TaskCharts.Expired | MODXX/src/components/ProjectTaskCharts.jsx:117-122 | the number of the member's open tasks whose deadline is present and parses to a time before now |
| TaskCharts.MemberCountsPartition | MODXX/src/components/ProjectTaskCharts.jsx:113-129 | when every present deadline is a valid date, a member's completed, expired and uncompleted counts add up to the tasks assigned to the member |
| TaskCharts.InvalidDeadlineUncounted | MODXX/src/components/ProjectTaskCharts.jsx:117-128 | a task whose deadline is an invalid date is counted as neither expired nor uncompleted |
| TaskCharts.MemberStats | MODXX/src/components/ProjectTaskCharts.jsx:113-135 | one row per member, in member order, holding the member's label and three counts |
| TaskCharts.MemberRowsAddUp | MODXX/src/components/ProjectTaskCharts.jsx:113-135 | each row of the member table adds up to the member's assigned tasks when deadlines are valid |
| TaskCharts.NonZero | MODXX/src/components/ProjectTaskCharts.jsx:69-90 | a slice for every member with a positive count and no other slice; no slice has value 0 |
| TaskCharts.CompletedPie | MODXX/src/components/ProjectTaskCharts.jsx:68-76 | every slice is positive, and every member with a done task has a slice with its label and done count |
| TaskCharts.ExpiredPie | MODXX/src/components/ProjectTaskCharts.jsx:79-90 | every slice is positive, and every member with an expired task has a slice with its label and expired count |
| TaskCharts.DueCountsSplit | MODXX/src/components/ProjectTaskCharts.jsx:94-110 | the tasks due on a day split into the done ones and the open ones: their counts add up to the day's count |
| TaskCharts.DayStats | MODXX/src/components/ProjectTaskCharts.jsx:94-110 | a row carrying the day's date whose completed and pending counts add up to its assigned count |
| TaskCharts.DailyStats | MODXX/src/components/ProjectTaskCharts.jsx:94-110 | one row per day, in day order, carrying that day's date |
| TaskCharts.GetDaysArray | MODXX/src/components/ProjectTaskCharts.jsx:30-38 | seven dates, from six days before today up to today, oldest first |
| TaskController.FindAccepted | backend/controller/taskController.js:17-35 | an accepted membership of that user in that project when one exists; none exactly when there is none |
| TaskController.AssignNeedsAcceptedRole | backend/controller/taskController.js:17-28 | a requester may assign only with an accepted leader or mentor membership; one whose memberships are all unaccepted or plain member ones may not |
| TaskController.StatusOrDefault | backend/controller/taskController.js:48 | a truthy status is kept; otherwise "pending" |
| TaskController.ApplyPatch | backend/controller/taskController.js:78-88 | each of status, deadline, title and description is replaced exactly when the request's value is truthy; every other field is kept |
| TaskController.PatchLaws | backend/controller/taskController.js:78-88 | a request with no truthy field changes nothing, and applying a request twice is applying it once |
| TaskController.FindTask | backend/controller/taskController.js:84-103 | the position of the task with that id in that project; none exactly when there is no such task |
| TaskController.DeleteRemovesTask | backend/controller/taskController.js:103 | with unique ids, removing the found task leaves one task fewer, ids unique, and no task with that id |
| TaskController.TaskStore.constructor | backend/controller/taskController.js:1-3 | an empty task collection over the given projects and memberships |
| TaskController.TaskStore.CreateTask | backend/controller/taskController.js:6-58 | 404 for a missing project, 403 unless the requester is an accepted leader or mentor, 400 unless the assignee is an accepted member, otherwise 201 with one new task assigned by the requester, status defaulting to "pending" |
| TaskController.TaskStore.UpdateTask | backend/controller/taskController.js:74-97 | 404 when no task has that id in that project; otherwise exactly that task is patched and returned |
| TaskController.TaskStore.DeleteTask | backend/controller/taskController.js:100-111 | 404 when no task has that id in that project; otherwise exactly that task is removed, the rest in order |
| UserController.DecimalLength | backend/controller/userController.js:34 | a number from 10^k up to but not including 10^(k+1) is written with k + 1 digits |
| UserController.Otp | backend/controller/userController.js:34 | the code is six decimal digits with no leading zero, and reads back as 100000 plus the random draw |
| UserController.OtpInjective | backend/controller/userController.js:34 | different draws give different codes |
| UserController.DeleteUnverified | backend/controller/userController.js:27-30 | exactly the unverified rows with that e-mail are removed; the others stay in order |
| UserController.NewAccount | backend/controller/userController.js:32-49 | the inserted row is unverified, carries the request's e-mail, the code of the draw, and expires ten minutes after `now` |
| UserController.FirstWithEmail | backend/controller/userController.js:70-73 | the first row with that e-mail; none exactly when no row has it, and an absent e-mail matches nothing |
| UserController.MarkVerified | backend/controller/userController.js:80-83 | every row with that e-mail becomes verified with its code and expiry cleared; other rows are unchanged |
| UserController.FirstAfterAppend | backend/controller/userController.js:37-73 | after registration the lookup by e-mail finds the new row when no older row kept that e-mail |
| UserController.RegisterThenVerify | backend/controller/userController.js:23-77 | after registering an e-mail no verified account holds, the mailed code is accepted exactly up to ten minutes later |
| UserController.VerifyConsumesOtp | backend/controller/userController.js:75-83 | after a successful verify no code is accepted again for that e-mail |
| UserController.Expired | backend/controller/userController.js:75 | `new Date() > otp_expires_at`: later than the expiry, and a NULL expiry compares as time 0 |
| UserController.OtpAccepted | backend/controller/userController.js:75 | a code is accepted when a user with that e-mail exists, the stored code is present and equal to the given one, and it has not expired |
| UserController.Login | backend/controller/userController.js:133-154 | login succeeds exactly for a found user whose password matches and who is verified, as that user; bad credentials exactly when no user is found or the password does not match |
| UserController.RegisterBlocksLogin | backend/controller/userController.js:144-148 | a freshly registered e-mail cannot log in before it is verified |
| UserController.ApplyProfile | backend/controller/userController.js:161-164 | the requester's row gets the four profile fields, every other column kept; other rows unchanged |
| UserController.RegisterKeepsIds | backend/controller/userController.js:27-49 | deleting rows and inserting one with the next id keeps every id below the next one |
| UserController.UserStore.constructor | backend/controller/userController.js:16 | an empty table |
| UserController.UserStore.Register | backend/controller/userController.js:23-64 | the unverified rows with that e-mail are replaced by one new unverified row with a fresh code; 201, or 500 when mailing fails after the insert |
| UserController.UserStore.Verify | backend/controller/userController.js:67-97 | 400 and no change unless a user is found with that exact code before it expires; otherwise 200 and the e-mail's rows are verified with the code cleared |
| UserController.UserStore.UpdateMe | backend/controller/userController.js:157-180 | 404 and no change for an unknown id; otherwise 200 and exactly the requester's profile fields are overwritten |
| LlmService.FindTool | ai-service/core/llm_service.py:76-81 | the position of the first registered tool with that name; none exactly when no tool has it |
| LlmService.FindFrom | ai-service/core/llm_service.py:109 | the first position from `k` on whose tool has that name; none exactly when no later tool has it |
| LlmService.ObjectIsNotEmptyList | ai-service/core/llm_service.py:116-117 | a text that is a JSON object never parses as the empty list |
| LlmService.EnvelopeIsNotEmptyList | ai-service/core/llm_service.py:116-117 | the envelopes of find_projects and find_users never trigger the spelling suggestion |
| LlmService.SuggestionPrompt | ai-service/core/llm_service.py:118 | the suggestion prompt holds the query right after its fixed opening |
| LlmService.RagPrompt | ai-service/core/llm_service.py:140-148 | the retrieval prompt holds the context and then the query at their fixed places |
| LlmService.Dispatch | ai-service/core/llm_service.py:102-132 | the query is sent first and at most one function response follows a tool call; an unreadable call throws with nothing else done; a known name runs the first tool of that name with the call's arguments; an unknown name answers the fixed apology and does nothing else; no retrieval happens here |
| LlmService.GenerateAnswer | ai-service/core/llm_service.py:91-150 | a failure sending the query escapes; at most one tool call, two prompts, and one retrieval, which is of the query; an answer comes from retrieval exactly when retrieval happened |
| LlmService.SuggestionPath | ai-service/core/llm_service.py:111-120 | a tool result that is an empty JSON list makes the suggestion's text the answer, with the query in its prompt and no function response |
| LlmService.ToolAnswerPath | ai-service/core/llm_service.py:111-130 | any other tool result goes back as one function response and the reply's text is the answer |
| LlmService.EnvelopeGetsToolAnswer | ai-service/core/llm_service.py:111-130 | a database tool's envelope always takes the function-response path |
| LlmService.UnreadableReplyRetrieves | ai-service/core/llm_service.py:103-150 | a reply whose call cannot be read falls back to one vector-store query and one generation whose prompt holds the context and the query |
| LlmService.ToolErrorRetrieves | ai-service/core/llm_service.py:112-150 | a tool failing with ValueError, IndexError or AttributeError also falls back to retrieval, after the tool call |
| LlmService.RetrievalExactlyWhenCaught | ai-service/core/llm_service.py:102-150 | the vector store is consulted exactly when the `try` block throws one of the exceptions its handler names |
| LlmService.SuggestionTypeErrorContinues | ai-service/core/llm_service.py:115-130 | a TypeError from the suggestion generation is swallowed and the tool result is sent as a function response after all |

## Left out

- Language-model backends, the embedding store, web search and HTML fetching are oracles: each call is an outcome value (a reply or the kind of exception it raises), and none of their inner behaviour is modelled.
- Which replies raise when `parts[0].function_call` is read is an abstract property of the reply; the Gemini response object is not modelled.
- JSON parsing is reduced to one predicate, "the reply text is a top-level empty JSON list"; other JSON texts are abstract.
- Tool bodies (find_projects and friends) are reached through one `runTool` oracle in the orchestrator. Their own filters are modelled separately in `DbQueryService`.
- The concurrent fetch and summarise stages of the scraper run in one order given as a permutation `completion` of the links; the thread pool, its worker bound and timing are not modelled.
- Scraper: the summariser prompt text, HTTP headers and timeouts, the search-URL building and BeautifulSoup's `get_text` are outside the model; a page's extracted text is given.
- Regular-expression, Mongo `$regex`, SQL `ILIKE` and `@>` matching are abstract match predicates; the text of the query filter is a `Dumps` parameter; diagnostic `print` calls are left out.
- Foreign keys, time zones and the floating-point AVG recomputation of ratings are left out; a rating is recorded but the average is not modelled.
- Password hashing, JWT and cookies, e-mail content, and the re-indexing calls made after verify and updateMe are left out.
- `ObjectId.isValid` is an oracle; the AI profile and project texts and the field aliases of the recommendation payload are reduced to the fields the logic reads; `parseInt` in the index-deletion route is not modelled.
- The periodic and concurrent health checks of the gRPC client are one method call each with the clock as a parameter.
- ModelManager: the Python `__init__` is the constructor followed by `Initialize`; a failure of the first `start_chat` call is not modelled separately from send failures.
- The project handlers not named among the core (getProjectMembers, getUserInvites, getPotentialMembers, getUserMemberships, exploreProjects, getProjectDetails and its public variant, getProjectTasks, and the message routes that duplicate messageController) are not modelled; they are reads without guards beyond membership.
- getUserPublicProfile, getMe and logout are reads or cookie clearing and are not modelled.
- backend/models/Task.js is not part of this model; a task is the record the task controller reads and writes.
- ProjectController.ProjectStore.CreateProject: keeps the member limit only when the effective maximum is at least 1; a project created with a negative maximum is outside that invariant.
- The fallback objects `{response: …}` of the chatbot and `{status: …}` of deletion are modelled by their text field only.
- A mongoose `findOne` with an undefined `assignedTo`, and trimming a message body that is not a string, are not modelled; bodies are strings or absent.
- Sorting is stated as sorted and a permutation; stability is not stated. Upper- and lower-casing follow ASCII only, not JavaScript's full Unicode mapping.
- TagInput.TagEditor.constructor: takes the tag limit as a parameter; the component's default of 3 is the value callers pass.
- The replies of the related and search recommendation routes are given as values: AI failures are absorbed by the gRPC fallbacks, which are modelled in `GrpcClient`.
- React rendering, animation, toasts and routing are left out; page components keep only the state their handlers change.

## Findings

| source | as written | input that shows it | evidently intended | confidence | as-written member | corrected member |
|---|---|---|---|---|---|---|
| backend/controller/projectController.js:365-378 | an invited member who accepts their own invitation becomes accepted without the capacity check that the leader's path of the same handler makes at lines 392-404 | project 0 with maximum 2 led by "lead", rows lead/accepted, a/accepted, b/invited (row 2); b sets row 2 to accepted, giving 3 accepted members for a maximum of 2 | accepting must be refused when the project is full, whoever accepts | medium, not executed | ProjectController.ProjectStore.UpdateMembershipStatus, with ProjectController.SelfAcceptOverfills | ProjectController.ProjectStore.UpdateMembershipStatusChecked |
| MODXX/src/pages/client/ExploreAll.jsx:35-101 | a new load (when `user` changes) resets the displayed list to the first nine projects but leaves the page counter as it was | page counter 2 and at least 19 listings with listing 9 different from listing 18: after the load, loadMore appends listings 18-26, so listings 9-17 are never shown | a load resets the page counter to 1 so that the displayed list is always the first pages of the loaded list | low, not executed; the page is not reached from the app's routes, so the defect shows only where the component is mounted | ExploreAll.ExploreAllPage.InitialLoad, with ExploreAll.StaleCounterSkips | ExploreAll.ExploreAllPage.Reload |
