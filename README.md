# Patent disclosure platform — a Dafny model

The platform connects inventors with patent attorneys. An inventor files an invention disclosure, or uploads an existing patent for review. A FastAPI backend keeps the disclosures with their versions, the AI-generated patent drafts, comments, chat messages, shared files and recorded video calls. It asks a language model for drafts, summaries and patent analyses. A React client shows the draft with comment highlights, runs the chats and video calls, and guards its pages by role.

This project models the logic of that system and proves what it promises:

- **Backend workflow.** The endpoints are modelled over in-memory tables (`Database.Db`, a class whose tables the endpoints change in place). Modelled are:
  - the access rule the endpoints repeat (an inventor sees its own disclosures, a lawyer those assigned to it, an admin all);
  - the disclosure status changes and version numbering;
  - draft, comment, message and video-session handling;
  - the file-type classifier and the upload checks;
  - the token and role guards;
  - the background AI job;
  - the post-processing of language-model replies and PDF text;
  - the migration script's decision table.
- **Client logic.** Modelled are:
  - the resolver that turns comment ranges into plain and highlighted segments, and the offset arithmetic of a text selection;
  - the reply filter and relative timestamps;
  - the patent template;
  - the page handlers for comments, chat, uploads, video calls and files;
  - the route table and its guards;
  - the session store in `localStorage`.

The code is modelled as it is written, not as any other description of it says. Where the code does not do what it evidently means to, the model keeps the code as written next to a corrected version (see "## Findings"). The rest of the model uses the corrected version. Two further gaps are modelled as written and only stated, since nothing in the code says what was meant:
- `AppRoutes.AdminHomeBlank`: the root sends an admin to `/admin/dashboard`, but no route exists there, so an admin sees an empty page.
- `AiService.GenerateDraft`: under the Gemini provider the draft text is never set, so every generation fails.

Foreign calls are inputs of the model. They are:
- the language-model clients, `json.loads` and the regular expressions;
- pdfplumber, uuid, the clock and the disk;
- the browser's selection, media and speech APIs;
- the network.

Each is a value or a function-typed parameter, so every lemma holds whatever those calls return.

## Model

| member | source | states |
|---|---|---|
| Domain.CheckAccess | backend/app/api/v1/endpoints/disclosures.py:113-125 | success exactly when the disclosure exists and the user may view it (an inventor their own, a lawyer one assigned to them, an admin any), returning it; otherwise 404 "Disclosure not found" or 403 "Access denied" |
| Domain.CheckLinkedAccess | backend/app/api/v1/endpoints/files.py:138-142 | the check reached through a file: with the disclosure present it passes exactly when the user may view it (else 403 "Access denied"); with the disclosure row gone only an admin passes and anyone else meets a 500 "Internal Server Error"; the video-session endpoints share this check (video_sessions.py:126-129) |
| Domain.AdminSeesAll | backend/app/api/v1/endpoints/disclosures.py:122-125 | an admin passes both checks on every disclosure |
| Domain.LinkedAgrees | backend/app/api/v1/endpoints/files.py:138-142 | for a disclosure that exists, the check through a file passes exactly when the direct check does |
| Files.GetFileType | backend/app/api/v1/endpoints/files.py:17-27 | after lower-casing, .pdf is a drawing, .docx and .doc a document, and every other extension (the default branch included) an image |
| Files.FileTypeIgnoresCase | backend/app/api/v1/endpoints/files.py:17-19 | the type depends only on the lower-cased extension |
| Files.SplitExt | backend/app/api/v1/endpoints/files.py:52 | `os.path.splitext`: stem plus extension is the name, and the extension is empty or one dot followed by neither a dot nor a slash |
| Files.SplitExtOf | backend/app/api/v1/endpoints/files.py:52 | an extension of one dot and no further dot or slash, after a stem not ending in a dot or slash, is split off as it was |
| Files.UploadCheck | backend/app/api/v1/endpoints/files.py:42-66 | a missing disclosure is 404 "Disclosure not found", an inventor on someone else's is 403 "Access denied"; success exactly when the disclosure exists, an inventor owns it, the extension is listed and the size within the limit; a 400 names the allowed list when the extension is refused, else the MB limit |
| Files.UploadExtensionCaseSensitive | backend/app/api/v1/endpoints/files.py:52-53 | the allow-list is compared as written: "x.pdf" passes the default setting and "x.PDF" does not |
| Files.PdfAnyCase | backend/app/api/v1/endpoints/files.py:19-21 | ".PDF" and ".pdf" are both typed a drawing |
| Files.UploadedRow | backend/app/api/v1/endpoints/files.py:69-89 | the row keeps the disclosure, the original name, the size and the extension, its type from the extension, the key uuid plus extension, and the bucket "local" |
| Files.UploadFile | backend/app/api/v1/endpoints/files.py:31-95 | fails exactly when the upload check fails, with its status and detail and no change; otherwise appends exactly the uploaded row with the next id and changes nothing else |
| Files.GetDisclosureFiles | backend/app/api/v1/endpoints/files.py:99-119 | fails exactly when the access check fails, with its status and detail; otherwise lists exactly the rows of that disclosure |
| Files.DownloadFile | backend/app/api/v1/endpoints/files.py:123-155 | an unknown id is 404 "File not found"; a refused access check (403, or 500 when the disclosure is gone and the user is not an admin) its error; a missing file on disk 404 "File not found on server"; otherwise the row served as application/octet-stream |
| Files.DeleteGate | backend/app/api/v1/endpoints/files.py:172-174 | passes exactly for an admin or the disclosure's inventor; refused with 403, or 500 when the disclosure row is gone |
| Files.DeleteFile | backend/app/api/v1/endpoints/files.py:159-185 | an unknown id is 404 with no change; otherwise it succeeds exactly when the delete gate passes, removing exactly that row, and fails with the gate's error and no change |
| Files.PreviewFile | backend/app/api/v1/endpoints/files.py:189-219 | no access check; an unknown id or a file missing on disk is a 404; otherwise the row served inline, as application/pdf exactly when its extension lower-cased is .pdf, else application/octet-stream |
| Config.AllowedExtensionsShape | backend/app/core/config.py:52-55 | one entry per comma-separated piece, each stripped of surrounding whitespace |
| Config.ExtensionsOfJoin | backend/app/core/config.py:52-55 | a comma-joined list of comma-free, unpadded extensions is read back as that same list |
| Config.DefaultExtensions | backend/app/core/config.py:41-55 | the default setting gives exactly .pdf, .png, .jpg, .jpeg, .docx |
| Config.DefaultExcludes | backend/app/core/config.py:41-55 | no extension outside those five passes the default list, so neither .doc nor upper-case spellings do |
| Config.MaxFileSizeBytes | backend/app/core/config.py:57-60 | the limit in bytes is the MB setting times 1024 * 1024 |
| Config.DefaultMaxFileSize | backend/app/core/config.py:40-60 | the default limit is 10 MiB, 10485760 bytes |
| Dependencies.ParseInt | backend/app/core/dependencies.py:48 | a value exactly when the stripped string is one or more digits with at most one sign in front; the value is the digits' decimal value, negated after a minus |
| Dependencies.ParseRendered | backend/app/core/dependencies.py:48 | any integer written in decimal reads back as itself |
| Dependencies.GetCurrentUser | backend/app/core/dependencies.py:13-55 | in the order of the checks: no payload 401 "Could not validate credentials", a non-access token 401 "Invalid token type", no subject 401 "Could not validate credentials", a subject `int()` cannot read 500, no user with that id 401 "User not found"; success exactly when an access token's subject names an existing user, who is returned |
| Dependencies.TokenForUser | backend/app/core/dependencies.py:40-55 | an access token whose subject is a user's id (written in decimal) authenticates that user |
| Dependencies.GetCurrentActiveUser | backend/app/core/dependencies.py:58-66 | the active user is the current user, unchanged |
| Dependencies.AllowedRolesAsWritten | backend/app/core/dependencies.py:79-81 | each allowed role that is an enum becomes its `str()`, "UserRole.X"; plain strings are kept |
| Dependencies.AllowedRoles | backend/app/core/dependencies.py:79-81 | the intended normalisation: each enum role becomes its value "X" |
| Dependencies.CheckRole | backend/app/core/dependencies.py:83-92 | the user passes exactly when their role's value is among the stored strings and is returned; otherwise 403 with the detail naming the stored list and the user's role value |
| Dependencies.StrNeverValue | backend/app/core/dependencies.py:81-85 | the `str()` of a role is never the value of any role |
| Dependencies.AsWrittenRejectsEveryone | backend/app/core/dependencies.py:79-92 | as written, every user is refused with 403, whatever roles are allowed, and the detail lists the `str()` of the members |
| Dependencies.RoleChecker | backend/app/core/dependencies.py:79-92 | corrected: the user passes exactly when their role is among the allowed ones, and is returned; otherwise 403 with the detail listing the allowed role values and the user's |
| Dependencies.DeniedDetail | backend/app/core/dependencies.py:87-91 | an inventor refused by the corrected lawyer-or-admin checker is told "Insufficient permissions. Required roles: " and ['LAWYER', 'ADMIN'], then ", user has: INVENTOR" |
| Dependencies.DeniedDetailAsWritten | backend/app/core/dependencies.py:81-91 | as written, the same inventor is refused with the list of `str()` forms, "UserRole.LAWYER" and "UserRole.ADMIN" |
| Dependencies.AsWrittenListShown | backend/app/core/dependencies.py:87-91 | that list appears in the detail as ['UserRole.LAWYER', 'UserRole.ADMIN'] |
| Disclosures.ListedAreViewable | backend/app/api/v1/endpoints/disclosures.py:21-40 | a disclosure is listed exactly when it exists and the user may view it, so the listing agrees with fetching one by one |
| Disclosures.FindLawyer | backend/app/api/v1/endpoints/disclosures.py:227 | finds a user exactly when one with that id has the lawyer role |
| Disclosures.InitialStatus | backend/app/api/v1/endpoints/disclosures.py:70 | a new disclosure is IN_REVIEW exactly when a (truthy) lawyer id is given, else DRAFT |
| Disclosures.StoreDisclosure | backend/app/api/v1/endpoints/disclosures.py:72-92 | appends the disclosure with the next id, the requested fields and the initial status, and its version 1 snapshot by the creator; nothing else changes |
| Disclosures.CreateDisclosure | backend/app/api/v1/endpoints/disclosures.py:43-99 | a role other than inventor or admin is 403 with the role checker's detail; a given lawyer id that is not a lawyer is 400 "Invalid lawyer ID or user is not a lawyer"; success exactly otherwise, storing the disclosure and its first version, with the AI job scheduled exactly when the content is non-empty; a failure changes nothing |
| Disclosures.GetDisclosure | backend/app/api/v1/endpoints/disclosures.py:102-127 | 404 exactly when no disclosure has the id; a result exists, has the id and is viewable; any other failure is 403 "Access denied"; an admin always gets an existing one |
| Disclosures.Edited | backend/app/api/v1/endpoints/disclosures.py:153-157 | title and content are replaced when given and kept otherwise; no other field changes |
| Disclosures.UpdateDisclosure | backend/app/api/v1/endpoints/disclosures.py:130-182 | 404 for an unknown id; otherwise success exactly for an admin or the owner (else 403 "Only inventor can edit disclosure"); the row is edited, a version with the next number is added exactly when content is given, and the AI job is scheduled exactly for non-empty content on a disclosure not APPROVED; failures change nothing |
| Disclosures.UpdateDisclosureStatus | backend/app/api/v1/endpoints/disclosures.py:185-206 | only a lawyer or an admin (else 403 with the role checker's detail), on an existing disclosure (else 404); success sets exactly the status and nothing else |
| Disclosures.AssignLawyer | backend/app/api/v1/endpoints/disclosures.py:209-236 | only an admin (else 403 with the role checker's detail), on an existing disclosure (404), with an id that is a lawyer (400 "Invalid lawyer ID"); success sets the lawyer and IN_REVIEW and nothing else |
| Disclosures.GetDisclosureVersions | backend/app/api/v1/endpoints/disclosures.py:239-263 | fails exactly as the access check does; otherwise exactly the disclosure's versions, as a permutation, newest version number first |
| Disclosures.DeleteDisclosure | backend/app/api/v1/endpoints/disclosures.py:266-285 | only an admin (else 403 with the role checker's detail), on an existing disclosure (404); success removes the disclosure and every row that cascades from it |
| Database.LatestVersion | backend/app/api/v1/endpoints/disclosures.py:160-162 | the highest version number the disclosure has, or none exactly when it has no versions |
| Database.AppendNextKeepsConsecutive | backend/app/api/v1/endpoints/disclosures.py:160-172 | when every disclosure's versions are numbered 1, 2, …, n in order, adding the next number (latest plus one) keeps them so |
| Database.NextIsCount | backend/app/api/v1/endpoints/disclosures.py:164 | with versions numbered 1…n the next number is n + 1 |
| Database.DeleteKeepsConsecutive | backend/app/models/disclosure.py:66 | removing one disclosure's versions keeps every other disclosure's numbering 1…n |
| Database.IndexOfAppended | backend/app/api/v1/endpoints/disclosures.py:113-115 | a row added under a key that was absent is the one a lookup by that key finds, as a `filter(... .id == key).first()` query does |
| Database.Db.DeleteComment | backend/app/models/comment.py:21-35 | the comment is removed and replies that pointed at it get no parent, which is how the ORM nulls a self-referencing key without a cascade |
| Database.Db.DeleteDisclosure | backend/app/models/disclosure.py:64-71 | deleting a disclosure deletes it with its versions, draft, files, comments, messages and sessions |
| Database.CascadeRemovesAll | backend/app/models/disclosure.py:66-71 | after the cascade no row of any dependent table refers to the deleted disclosure |
| Database.CascadeKeepsOthers | backend/app/models/disclosure.py:64-71 | every other disclosure survives the cascade |
| Database.CascadeValid | backend/app/models/disclosure.py:64-71 | the cascade keeps ids below the next id, version numbering consecutive and at most one draft per disclosure |
| Comments.Thread | backend/app/api/v1/endpoints/comments.py:35 | the disclosure's comments, exactly those as a permutation, oldest first |
| Comments.ThreadMembers | backend/app/api/v1/endpoints/comments.py:35 | a comment is in the thread exactly when it belongs to that disclosure |
| Comments.WithAuthor | backend/app/api/v1/endpoints/comments.py:39-44 | the comment with its author's name and role value, or neither when the author is missing |
| Comments.GetComments | backend/app/api/v1/endpoints/comments.py:14-46 | fails exactly as the access check does; otherwise the thread in order, each with its author fields, timestamps non-decreasing |
| Comments.CreateComment | backend/app/api/v1/endpoints/comments.py:49-92 | fails exactly as the access check does, changing nothing; otherwise appends exactly the row with the given content, parent and selection, by the caller, and answers it with the caller's name and role |
| Comments.CreatedIsListed | backend/app/api/v1/endpoints/comments.py:35-81 | a created comment is in its disclosure's thread afterwards |
| Comments.UpdateComment | backend/app/api/v1/endpoints/comments.py:95-117 | 404 "Comment not found" for an unknown id; otherwise success exactly for the author or an admin (else 403 "Can only edit your own comments"); only the content changes |
| Comments.DeleteComment | backend/app/api/v1/endpoints/comments.py:120-140 | 404 for an unknown id; success exactly for the author or an admin (else 403 "Can only delete your own comments"); the comment is gone and its replies lose their parent |
| Comments.RemainingGone | backend/app/api/v1/endpoints/comments.py:137 | after the delete no row has the id or points to it as parent |
| Comments.RemainingKeeps | backend/app/api/v1/endpoints/comments.py:137 | every other comment survives, with its parent cleared if it was a reply to the deleted one |
| Drafts.EmptyDraft | backend/app/api/v1/endpoints/drafts.py:39-44 | the draft made on first read: PENDING, empty sections and figure index, no text, model or error |
| Drafts.GetPatentDraft | backend/app/api/v1/endpoints/drafts.py:13-49 | fails exactly as the access check does, changing nothing; returns the disclosure's draft when there is one, unchanged; otherwise creates and stores exactly one empty draft; afterwards the disclosure has the returned draft |
| Drafts.CheckAssigned | backend/app/api/v1/endpoints/drafts.py:69-71 | only a lawyer is checked, and passes exactly when assigned (else 403 "Not assigned to this disclosure", or 500 when the disclosure row is gone) |
| Drafts.WithSection | backend/app/api/v1/endpoints/drafts.py:74-77 | the sections (a fresh object if they were not one) with the named section set to the content and every other section kept |
| Drafts.WithSectionIdempotent | backend/app/api/v1/endpoints/drafts.py:77 | setting the same section to the same content twice is setting it once |
| Drafts.WithSectionCommutes | backend/app/api/v1/endpoints/drafts.py:77 | edits of two different sections may be applied in either order |
| Drafts.SectionEditLost | backend/app/api/v1/endpoints/drafts.py:74-80 | as written, the in-place edit of the JSON column is not flagged as a change, so the committed sections differ from the edited ones whenever the section did not already hold the new content |
| Drafts.SectionEditLostExample | backend/app/api/v1/endpoints/drafts.py:74-80 | changing "background" from "old" to "new" leaves "old" stored |
| Drafts.UpdateDraftSection | backend/app/api/v1/endpoints/drafts.py:52-82 | a role other than lawyer or admin is 403 with the role checker's detail, an unknown draft 404, then the assignment check decides; success sets the section (corrected to be stored) and nothing else changes |
| Drafts.UpdateDraftFullText | backend/app/api/v1/endpoints/drafts.py:85-112 | the same gates; success sets exactly the full text |
| Drafts.Review | backend/app/api/v1/endpoints/drafts.py:125-133 | the common shape of approve and request-revision: role 403 with the role checker's detail, missing disclosure 404, an unassigned lawyer 403, then exactly the status is set |
| Drafts.ApproveDraft | backend/app/api/v1/endpoints/drafts.py:115-137 | a role other than lawyer or admin is 403 with the role checker's detail, a missing disclosure 404 "Disclosure not found", an unassigned lawyer 403 "Not assigned to this disclosure"; success exactly otherwise, setting APPROVED and answering "Patent draft approved" with the id |
| Drafts.RequestRevision | backend/app/api/v1/endpoints/drafts.py:140-163 | the same gates and failures as approval; success sets REVISION_REQUESTED and answers "Revision requested" with the id and the feedback |
| Messages.Conversation | backend/app/api/v1/endpoints/messages.py:35-40 | the disclosure's messages, exactly those as a permutation, oldest first |
| Messages.ConversationMembers | backend/app/api/v1/endpoints/messages.py:35-40 | a message is in the conversation exactly when it belongs to that disclosure |
| Messages.WithSender | backend/app/api/v1/endpoints/messages.py:44-49 | the message with its sender's name and role value, or neither when the sender is missing |
| Messages.GetMessages | backend/app/api/v1/endpoints/messages.py:14-51 | fails exactly as the access check does; otherwise the conversation in order, each with its sender fields, timestamps non-decreasing |
| Messages.CreateMessage | backend/app/api/v1/endpoints/messages.py:54-92 | fails exactly as the access check does, changing nothing; otherwise appends exactly one unread row by the caller and answers it with the caller's name and role |
| Messages.SentIsListed | backend/app/api/v1/endpoints/messages.py:35-83 | a sent message is in its disclosure's conversation afterwards |
| Messages.MarkMessageRead | backend/app/api/v1/endpoints/messages.py:95-131 | 404 "Message not found" for an unknown id; then the access check on its disclosure decides; success sets exactly the read flag and answers with the sender fields |
| VideoSessions.Participants | backend/app/api/v1/endpoints/video_sessions.py:66-70 | at most two ids: the inventor first when non-zero, then the assigned lawyer when present and non-zero; a falsy id is never listed |
| VideoSessions.NewSession | backend/app/api/v1/endpoints/video_sessions.py:72-76 | a new session on the disclosure, with its participants, the start time, empty metadata and no transcript, summary or end |
| VideoSessions.CreateVideoSession | backend/app/api/v1/endpoints/video_sessions.py:45-82 | fails exactly as the access check does, changing nothing; otherwise appends exactly the new session with the next id |
| VideoSessions.GetDisclosureSessions | backend/app/api/v1/endpoints/video_sessions.py:85-108 | fails exactly as the access check does; otherwise exactly the disclosure's sessions, as a permutation, most recently started first |
| VideoSessions.SessionAccess | backend/app/api/v1/endpoints/video_sessions.py:120-129 | 404 "Session not found" for an unknown id; otherwise the check through the session's disclosure decides (500 for a non-admin when that row is gone) |
| VideoSessions.GetVideoSession | backend/app/api/v1/endpoints/video_sessions.py:111-131 | succeeds exactly when the session access check does, returning the session with that id |
| VideoSessions.Updated | backend/app/api/v1/endpoints/video_sessions.py:156-159 | the transcript and the metadata are replaced when given and kept otherwise; nothing else changes |
| VideoSessions.UpdatedLaws | backend/app/api/v1/endpoints/video_sessions.py:156-159 | an empty update changes nothing, and applying an update twice is applying it once |
| VideoSessions.UpdateVideoSession | backend/app/api/v1/endpoints/video_sessions.py:134-164 | succeeds exactly when the session access check does; success stores exactly the updated session, failure changes nothing |
| VideoSessions.Ended | backend/app/api/v1/endpoints/video_sessions.py:189-203 | the transcript and end time are set, the metadata replaced only by a non-empty one, and the summary set (the model's text, or the error text) exactly when the transcript is longer than 50 characters |
| VideoSessions.EndedLaws | backend/app/api/v1/endpoints/video_sessions.py:189-203 | ending twice with the same data is ending once, and a short transcript never consults the summariser |
| VideoSessions.SummaryThreshold | backend/app/api/v1/endpoints/video_sessions.py:196 | 50 characters is not summarised, 51 is |
| VideoSessions.EndVideoSession | backend/app/api/v1/endpoints/video_sessions.py:167-208 | succeeds exactly when the session access check does; success stores exactly the ended session |
| VideoSessions.DeleteVideoSession | backend/app/api/v1/endpoints/video_sessions.py:211-230 | a non-admin gets 403 "Admin access required" before the lookup, an unknown id 404; success removes exactly that session |
| AiProcessing.FreshDraft | backend/app/tasks/ai_processing.py:33-36 | the draft made when none exists: PROCESSING, with nothing generated yet |
| AiProcessing.Settle | backend/app/tasks/ai_processing.py:46-51 | after generation the draft is COMPLETED with the sections and the model name; after an exception it is FAILED with the message; its id, disclosure, figure index and full text are kept |
| AiProcessing.FinalStatus | backend/app/tasks/ai_processing.py:54-66 | the disclosure ends READY_FOR_REVIEW exactly when generation succeeded, else back at DRAFT |
| AiProcessing.MarkProcessing | backend/app/tasks/ai_processing.py:25-26 | the disclosure is marked AI_PROCESSING and committed |
| AiProcessing.PrepareDraft | backend/app/tasks/ai_processing.py:29-43 | the disclosure's draft is set to PROCESSING, or a new PROCESSING draft is added when it has none; the index returned is that draft's |
| AiProcessing.Record | backend/app/tasks/ai_processing.py:46-67 | the outcome of generation is written to the draft and the disclosure |
| AiProcessing.CommitsProcess | backend/app/tasks/ai_processing.py:19-67 | the three commits in sequence give the same tables as the single described outcome |
| AiProcessing.ProcessDisclosure | backend/app/tasks/ai_processing.py:7-67 | running the job leaves the tables as that outcome describes |
| AiProcessing.ProcessedEffect | backend/app/tasks/ai_processing.py:7-67 | an unknown id changes nothing; otherwise only that disclosure's status changes, to its final status (never left AI_PROCESSING), the disclosure has a draft settled by the outcome, and no other table changes |
| AiProcessing.ProcessedReusesDraft | backend/app/tasks/ai_processing.py:29-43 | an existing draft is reused: no draft is added and no id consumed |
| AiService.Configure | backend/app/services/ai_service.py:9-26 | "openai", "anthropic" and "gemini" configure that provider with its default model; any other setting raises "Unsupported LLM provider: " followed by it |
| AiService.ConfigureRoundTrip | backend/app/services/ai_service.py:9-26 | each provider's setting name configures that provider and its model |
| AiService.JsonWindow | backend/app/services/ai_service.py:121-124 | there is a window exactly when some '{' comes before some '}', and it starts with '{' and ends with '}' |
| AiService.JsonWindowAt | backend/app/services/ai_service.py:121-124 | the window runs from the first '{' to the last '}' |
| AiService.JsonWindowOf | backend/app/services/ai_service.py:121-124 | text around one braced body, with no '{' before it and no '}' after it, yields exactly that body |
| AiService.ExtractClaims | backend/app/services/ai_service.py:145-156 | no claims section gives no claims; otherwise one "Claim n: text" entry per match, the text stripped |
| AiService.ClaimLayout | backend/app/services/ai_service.py:156 | every claim starts with "Claim n: " and its text carries no surrounding whitespace |
| AiService.FallbackSections | backend/app/services/ai_service.py:129-136 | the fallback object has exactly the five keys, with the four extracted sections and the claims list |
| AiService.ParseDraftResponse | backend/app/services/ai_service.py:112-136 | a window that parses as JSON is the result; otherwise the fallback sections |
| AiService.ParsedDraftShape | backend/app/services/ai_service.py:129-136 | whenever the fallback is taken the result is an object with exactly the five section keys |
| AiService.ParsedDraftOfWindow | backend/app/services/ai_service.py:119-125 | a reply holding one parseable braced body yields that body's value |
| AiService.GenerateDraft | backend/app/services/ai_service.py:28-71 | OpenAI and Anthropic replies are parsed into sections and their exceptions become "AI generation failed: …"; under Gemini no branch sets the reply text, so every call fails with that prefix |
| AiService.SummarizeAsWritten | backend/app/services/ai_service.py:181-202 | as written, the summary is missing (None) exactly under Gemini, which has no branch |
| AiService.GeminiSummaryMissing | backend/app/services/ai_service.py:181-202 | under Gemini the summariser returns nothing whatever the reply |
| AiService.Summarize | backend/app/services/ai_service.py:181-202 | corrected: the reply text, or "Error generating summary: " and the message when the call raises; it agrees with the code as written wherever that returns a value |
| AiService.OpenAIMessages | backend/app/services/ai_service.py:216-220 | the system prompt first exactly when it is truthy, then all messages in order |
| AiService.AnthropicSystem | backend/app/services/ai_service.py:233 | the truthy system prompt, else the default assistant prompt; never empty |
| AiService.GeminiRole | backend/app/services/ai_service.py:256 | "user" stays "user" and every other role becomes "model" |
| AiService.GeminiHistory | backend/app/services/ai_service.py:253-258 | every message but the last, in order, as role and single-part content |
| AiService.Chat | backend/app/services/ai_service.py:204-272 | the request each provider is sent (model, system prompt, messages or history and latest message); Gemini with no messages answers "No message provided"; otherwise the reply, with exceptions wrapped as "Chat generation failed: …" |
| AiService.PatentNumberShown | backend/app/services/ai_service.py:289 | the patent number when truthy, else "Not provided" |
| AiService.AnalysisExcerpt | backend/app/services/ai_service.py:292 | the first 15000 characters of the text, the whole text when shorter |
| AiService.AnalysisExcerptIdempotent | backend/app/services/ai_service.py:292 | cutting the excerpt again changes nothing |
| AiService.AnalysisPromptFor | backend/app/services/ai_service.py:286-292 | the analysis prompt carries the excerpt and the shown patent number |
| AiService.RawAnalysis | backend/app/services/ai_service.py:376-380 | the raw fallback has exactly the keys summary, raw_analysis and error, with the whole text and a summary that is its first at most 500 characters |
| AiService.AnalyzePatentAsWritten | backend/app/services/ai_service.py:338-383 | as written, an exception becomes "Patent analysis failed: …", and the result is None exactly when the reply has no braced window |
| AiService.NoBracesNoAnalysis | backend/app/services/ai_service.py:368-380 | a reply with no '{' makes the analysis return None |
| AiService.AnalyzePatent | backend/app/services/ai_service.py:338-383 | corrected: a parseable window is the result, and any other reply falls back to the raw analysis; it agrees with the code as written wherever that returns an analysis |
| PatentAnalysis.PageTexts | backend/app/api/v1/endpoints/patent_analysis.py:29-32 | the texts of the pages that have one, in page order; none is empty |
| PatentAnalysis.PageTextsAppend | backend/app/api/v1/endpoints/patent_analysis.py:29-32 | collecting two runs of pages is collecting each and concatenating |
| PatentAnalysis.PageTextsOfOne | backend/app/api/v1/endpoints/patent_analysis.py:30-32 | a page with text contributes exactly that text, a page without nothing |
| PatentAnalysis.PageTextsAllText | backend/app/api/v1/endpoints/patent_analysis.py:29-32 | when every page has text, every page's text is kept, in place |
| PatentAnalysis.ExtractText | backend/app/api/v1/endpoints/patent_analysis.py:15-34 | the page texts joined by a blank line |
| PatentAnalysis.AnalyzeText | backend/app/api/v1/endpoints/patent_analysis.py:97-121 | blank or short (under 100 stripped characters) text is a 400; otherwise success exactly when the analysis call returns, with the file's name, size, patent number, text length and the analysis; an exception is a 500 "AI analysis failed: Patent analysis failed: …" |
| PatentAnalysis.AnalysisLaws | backend/app/api/v1/endpoints/patent_analysis.py:39-121 | a name not ending in .pdf (any case) is a 400 first, then a file over 50 MiB a 400, then an unreadable PDF a 500 naming the extraction error twice, else the text is analysed |
| PatentAnalysis.AnalyzePatentPdf | backend/app/api/v1/endpoints/patent_analysis.py:39-129 | the endpoint answers as the analysis above |
| PatentAnalysis.FirstPages | backend/app/api/v1/endpoints/patent_analysis.py:172 | at most the first five pages, all of them when there are fewer |
| PatentAnalysis.SummaryExcerpt | backend/app/api/v1/endpoints/patent_analysis.py:187 | at most the first 5000 characters, the whole text when shorter |
| PatentAnalysis.QuickPatentSummary | backend/app/api/v1/endpoints/patent_analysis.py:132-201 | a non-PDF name is a 400; an unreadable PDF escapes as a 500; too little text in the first five pages is a 400 "Could not extract text from PDF"; otherwise the file name and the summary of the excerpt |
| PatentAnalysis.QuickSummaryIgnoresLaterPages | backend/app/api/v1/endpoints/patent_analysis.py:172 | pages after the fifth never change the summarised text |
| PatentAnalysis.SummaryRequestWhole | backend/app/api/v1/endpoints/patent_analysis.py:186-188 | a short text is sent whole after the "Patent Document:" heading |
| HighlightableText.Substring | frontend/src/components/HighlightableText.tsx:53-77 | JavaScript's `substring`: arguments clamped to the text and swapped when reversed |
| HighlightableText.HighlightComments | frontend/src/components/HighlightableText.tsx:32-34 | exactly the comments with a selected text, both offsets and no parent |
| HighlightableText.TopLevel | frontend/src/components/HighlightableText.tsx:33 | exactly the comments with no parent |
| HighlightableText.GetTextSegments | frontend/src/components/HighlightableText.tsx:30-85 | the loop builds exactly the segments the specification function describes |
| HighlightableText.NoHighlightsWholeText | frontend/src/components/HighlightableText.tsx:36-38 | with no highlight comments the whole text is one plain segment from 0 to its length |
| HighlightableText.RepliesIgnored | frontend/src/components/HighlightableText.tsx:31-34 | replies never change the segments |
| HighlightableText.HighlightsOfTopLevel | frontend/src/components/HighlightableText.tsx:33 | dropping replies first keeps the same highlight comments |
| HighlightableText.SegmentLabels | frontend/src/components/HighlightableText.tsx:50-82 | every segment is either plain, or a highlight labelled with one of the highlight comments and carrying exactly that comment's range and text |
| HighlightableText.Tiling | frontend/src/components/HighlightableText.tsx:40-84 | for non-overlapping highlights the segments read back as the text, start at 0, end at its length and each begins where the previous ended |
| HighlightableText.EmittedTexts | frontend/src/components/HighlightableText.tsx:46-71 | after each comment the emitted segments spell the text up to the cursor |
| HighlightableText.EmittedShape | frontend/src/components/HighlightableText.tsx:46-71 | the emitted segments are empty only before the first comment and always end at the cursor |
| HighlightableText.HighlightOrder | frontend/src/components/HighlightableText.tsx:41-68 | the highlights appear in the order of the stable sort by start offset, which is a permutation of the highlight comments keeping the original order of equal starts |
| HighlightableText.OverlapBreaksCoverage | frontend/src/components/HighlightableText.tsx:46-71 | overlapping ranges repeat text: [0,3) and [1,2) over "abcd" show "abcbcd" |
| HighlightableText.MouseUpAsWritten | frontend/src/components/HighlightableText.tsx:87-107 | as written, a blank selection does nothing; otherwise the trimmed text is reported starting at the offset of the untrimmed selection |
| HighlightableText.MouseUpAsWrittenShifted | frontend/src/components/HighlightableText.tsx:89-105 | selecting " b" in "a b" reports "b" at 1 to 2, where the text holds " " |
| HighlightableText.MouseUp | frontend/src/components/HighlightableText.tsx:87-107 | corrected: the start moves past the leading whitespace trimmed off |
| HighlightableText.MouseUpOffsets | frontend/src/components/HighlightableText.tsx:87-107 | corrected, the reported range lies within the selection and the text at that range is exactly the reported text |
| CommentThread.Replies | frontend/src/components/CommentThread.tsx:25 | only comments of the list whose parent is this comment |
| CommentThread.RepliesMembers | frontend/src/components/CommentThread.tsx:25 | a comment is a reply exactly when it is in the list with this comment as parent |
| CommentThread.RepliesAppend | frontend/src/components/CommentThread.tsx:25 | filtering two lists is filtering each and concatenating, so the replies keep the list's order |
| CommentThread.AgeOf | frontend/src/components/CommentThread.tsx:41-50 | under a minute is "just now", then whole minutes (1 to 59), then whole hours (1 to 23), and from 1440 minutes on the date; each band holds exactly its spans of time |
| CommentThread.FormatTimestamp | frontend/src/components/CommentThread.tsx:41-50 | "Just now", "Nm ago", "Nh ago" or the locale date, as the age says |
| CommentThread.AgeMonotone | frontend/src/components/CommentThread.tsx:41-50 | as time passes a timestamp never moves back to an earlier band, and its minute count never falls |
| CommentThread.ReplyBox.SubmitReply | frontend/src/components/CommentThread.tsx:27-39 | a blank reply sends nothing; otherwise the reply is sent for this comment with the box submitting during the call, cleared only on success, and not submitting afterwards |
| PatentTemplate.OrElse | frontend/src/pages/inventor/DisclosureDetail.tsx:18 | JavaScript's `v \|\| fallback` on strings: the value when non-empty, else the fallback |
| PatentTemplate.SlotAt | frontend/src/pages/inventor/DisclosureDetail.tsx:12-77 | each interpolated value appears verbatim at its offset in the rendered template |
| PatentTemplate.SlotsInOrder | frontend/src/pages/inventor/DisclosureDetail.tsx:12-77 | the values appear in the order of their placeholders, separated by the fixed text between |
| PatentTemplate.FieldOf | frontend/src/pages/inventor/DisclosureDetail.tsx:14-77 | which placeholder shows the title, which the lower-cased title, and which the clock |
| PatentTemplate.FieldPlaces | frontend/src/pages/inventor/DisclosureDetail.tsx:18-71 | which placeholders show the problem, the solution, the advantages, the technical details and the prior art |
| PatentTemplate.FillLaws | frontend/src/pages/inventor/DisclosureDetail.tsx:14-77 | the title and clock placeholders show them as they are; a content placeholder shows the field when non-empty, else its own fallback text |
| PatentTemplate.TemplateStartsWithTitle | frontend/src/pages/inventor/DisclosureDetail.tsx:12-14 | the draft begins with the heading and the disclosure's title |
| PatentTemplate.TemplateShowsSlot | frontend/src/pages/inventor/DisclosureDetail.tsx:12-77 | every filled placeholder appears verbatim in the draft |
| PatentTemplate.TemplateInOrder | frontend/src/pages/inventor/DisclosureDetail.tsx:12-77 | the placeholders appear in source order |
| PatentTemplate.TemplateIgnoresId | frontend/src/pages/inventor/DisclosureDetail.tsx:9-77 | the draft depends on the title and content only, not on the id |
| InventorDetail.FailureAlert | frontend/src/pages/inventor/DisclosureDetail.tsx:158 | the alert text: the prefix and the server's detail, or "Unknown error" when there is none |
| InventorDetail.FullComment | frontend/src/pages/inventor/DisclosureDetail.tsx:144-146 | with a selection the comment is quoted as "[Comment on: "…"]" and a blank line before the content; without one it is the content |
| InventorDetail.FullCommentParts | frontend/src/pages/inventor/DisclosureDetail.tsx:144-146 | the sent comment ends with the content, starts with the quote of a selection, and is 18 characters plus the selection longer |
| InventorDetail.FullCommentInjective | frontend/src/pages/inventor/DisclosureDetail.tsx:144-146 | two contents on the same selection never produce the same comment |
| InventorDetail.InventorPage.HandleTextSelection | frontend/src/pages/inventor/DisclosureDetail.tsx:130-138 | a non-blank selection is kept trimmed and opens the comment dialog; a blank or missing one changes nothing |
| InventorDetail.InventorPage.HandleAddComment | frontend/src/pages/inventor/DisclosureDetail.tsx:140-162 | nothing is sent for blank content or no id; otherwise the full comment is sent, and success clears the content, the selection and the dialog, while failure alerts and keeps them |
| InventorDetail.InventorPage.HandleSendMessage | frontend/src/pages/inventor/DisclosureDetail.tsx:164-183 | nothing for a blank message or no id; otherwise the message is sent with the sending flag on during the call and off after, cleared on success and kept with an alert on failure |
| LawyerDetail.ApiMessages | frontend/src/pages/lawyer/DisclosureDetail.tsx:170-174 | each entry becomes a chat message with the same role and content, in order, dropping the id and timestamp |
| LawyerDetail.ApiMessagesAppend | frontend/src/pages/lawyer/DisclosureDetail.tsx:170-174 | converting a list with one more entry adds that entry's message at the end |
| LawyerDetail.NumberedExchange | frontend/src/pages/lawyer/DisclosureDetail.tsx:160-196 | with entries numbered 1…n, the question numbered n + 1 and the answer n + 2 keep the numbering, so every id is distinct |
| LawyerDetail.LawyerPage.SendMessage | frontend/src/pages/lawyer/DisclosureDetail.tsx:156-202 | a blank input changes nothing; otherwise the whole history plus the question is sent, the question and the answer (or the apology when the call fails) are appended with the next two ids, the input clears, and the typing flag is on during the call and off after; numbering is preserved |
| LawyerDetail.LawyerPage.SendInventorMessage | frontend/src/pages/lawyer/DisclosureDetail.tsx:204-239 | a blank input changes nothing; otherwise the question and the drawn canned reply are appended with the next two ids, the input clears, and the other chat is untouched |
| AppRoutes.ProtectedRoute | frontend/src/App.tsx:18-41 | a spinner exactly while the session is being restored; otherwise a redirect to /welcome exactly when no one is signed in, a redirect to / exactly when the user's role is not among the allowed ones, and the page exactly when it is (or when no roles are given) |
| AppRoutes.RootRedirect | frontend/src/App.tsx:44-61 | always a redirect: to /welcome without a user, else to the inventor, lawyer or admin dashboard by role, and to /welcome for any other role |
| AppRoutes.FirstMatch | frontend/src/App.tsx:63-123 | the route found matches the path and no earlier route does; no route is found only when none matches |
| AppRoutes.GuardsAdmitAdmins | frontend/src/App.tsx:73-122 | every guarded route lets admins in, and exactly one of inventors and lawyers |
| AppRoutes.RoutesDisjoint | frontend/src/App.tsx:63-123 | no path matches two different routes, so the order of the routes never decides what is shown |
| AppRoutes.DashboardPieces | frontend/src/App.tsx:74-81 | "/area/dashboard" splits into the two segments area and dashboard |
| AppRoutes.DashboardMatches | frontend/src/App.tsx:74-81 | a lower-case area's dashboard path matches its two literal segments |
| AppRoutes.MatchChosen | frontend/src/App.tsx:63-123 | any route that matches a path is the one chosen for it |
| AppRoutes.FirstMatchUnique | frontend/src/App.tsx:63-123 | a route that alone matches the path is the one chosen |
| AppRoutes.DashboardShows | frontend/src/App.tsx:63-123 | an area's dashboard path shows that route's guard with its allowed roles and page |
| AppRoutes.InventorHomeShows | frontend/src/App.tsx:74-81 | /inventor/dashboard shows the InventorDashboard page behind the inventor-or-admin guard |
| AppRoutes.LawyerHomeShows | frontend/src/App.tsx:108-115 | /lawyer/dashboard shows the LawyerDashboard page behind the lawyer-or-admin guard |
| AppRoutes.AdminAreaUnrouted | frontend/src/App.tsx:63-123 | no route matches a two-segment path under /admin |
| AppRoutes.AdminHomeBlank | frontend/src/App.tsx:44-123 | the admin's home, where the root redirects admins, matches no route and shows nothing, whatever the session |
| AppRoutes.RootIgnoresLoading | frontend/src/App.tsx:44-61 | the root redirects to /welcome while the stored session is still loading and no user is known yet |
| AuthStorage.StringifyNonEmpty | frontend/src/services/authService.ts:31-35 | a user is never stored as the empty string, given that parsing inverts stringifying |
| AuthStorage.LocalStorage.SetItem | frontend/src/services/authService.ts:31-35 | the key holds the value and nothing else changes |
| AuthStorage.LocalStorage.RemoveItem | frontend/src/services/authService.ts:20-24 | the key is gone and nothing else changes |
| AuthStorage.LocalStorage.GetItem | frontend/src/services/authService.ts:26-29 | a value exactly when the key is present, and it is the stored one |
| AuthStorage.WithAuthData | frontend/src/services/authService.ts:31-35 | the three session keys are added holding the access token, the refresh token and the user as JSON; every other key keeps its value |
| AuthStorage.WithoutAuthData | frontend/src/services/authService.ts:20-24 | exactly the three session keys are removed; the remaining keys keep their values |
| AuthStorage.StoredUser | frontend/src/services/authService.ts:26-29 | a missing or empty user entry reads as no user |
| AuthStorage.StoreAuthData | frontend/src/services/authService.ts:31-35 | the store becomes WithAuthData of the old store |
| AuthStorage.Logout | frontend/src/services/authService.ts:20-24 | the store becomes WithoutAuthData of the old store |
| AuthStorage.GetStoredUser | frontend/src/services/authService.ts:26-29 | the result is StoredUser of the store |
| AuthStorage.StoreThenGet | frontend/src/services/authService.ts:26-35 | after storing a login, reading the stored user gives the login's user |
| AuthStorage.LogoutThenGet | frontend/src/services/authService.ts:20-29 | after logging out, no user is stored |
| AuthStorage.LogoutUndoesStore | frontend/src/services/authService.ts:20-35 | logging out after a login leaves the store as logging out without it would |
| AuthStorage.LogoutIdempotent | frontend/src/services/authService.ts:20-24 | logging out twice is logging out once |
| AuthContext.AuthProvider.constructor | frontend/src/context/AuthContext.tsx:16-18 | the provider starts with no user, loading, and consistent with its store |
| AuthContext.AuthProvider.IsAuthenticated | frontend/src/context/AuthContext.tsx:50 | true exactly when there is a user; once loaded, exactly when the store holds a user |
| AuthContext.AuthProvider.Mount | frontend/src/context/AuthContext.tsx:20-27 | a stored user becomes the provider's user, a falsy entry leaves it, and loading ends; a stored string that does not parse throws and changes nothing; the provider stays consistent with its store |
| AuthContext.AuthProvider.SignIn | frontend/src/context/AuthContext.tsx:29-39 | with an answer the session is stored and its user shown; a failed request changes neither; loading is untouched and the provider stays consistent |
| AuthContext.AuthProvider.Logout | frontend/src/context/AuthContext.tsx:41-44 | the session keys are removed and no user is shown; the provider stays consistent |
| AuthContext.UseAuth | frontend/src/context/AuthContext.tsx:62-67 | throws with the "within an AuthProvider" message exactly outside a provider, and otherwise gives the context |
| SharedFiles.FailureText | frontend/src/components/common/SharedFiles.tsx:49 | never empty: the response's detail when present, else the error's message, else "Unknown error" |
| SharedFiles.ProgressLaws | frontend/src/components/common/SharedFiles.tsx:40-44 | the bar moves strictly forward with each upload, stays within 0 to 100, and is full after the last |
| SharedFiles.ProgressFull | frontend/src/components/common/SharedFiles.tsx:43 | after the last of n uploads the bar is at 100 |
| SharedFiles.UploadCount | frontend/src/components/common/SharedFiles.tsx:38-48 | the uploads that go through are all of them, or exactly those before the one that fails |
| SharedFiles.FilesPanel.HandleFileSelect | frontend/src/components/common/SharedFiles.tsx:32-57 | no selection does nothing; otherwise the files are uploaded in order up to the failing one, the bar shows each share, an alert is given exactly when one fails and carries its text, and the panel ends idle with the bar at 0 |
| SharedFiles.FileIcon | frontend/src/components/common/SharedFiles.tsx:102-109 | the PDF, picture and document icons exactly for their lower-cased extensions |
| SharedFiles.IconAgreesWithFileType | frontend/src/components/common/SharedFiles.tsx:102-109 | the icon agrees with the backend's file type: drawings get the PDF icon, documents the document icon, images the picture icon or the paper clip |
| SharedFiles.FormatFileSize | frontend/src/components/common/SharedFiles.tsx:111-115 | whole bytes exactly below 1024; otherwise a kilobyte count from 1 up to 1024 or a megabyte count of at least 1, each of which times its unit gives back the size |
| SharedFiles.UnitMonotone | frontend/src/components/common/SharedFiles.tsx:111-115 | a bigger file never gets a smaller unit |
| UploadPatent.WithoutPdfExtension | frontend/src/pages/inventor/UploadPatent.tsx:51 | a prefix of the name: four characters shorter exactly when it ends in ".pdf" in any case, else the name itself |
| UploadPatent.WithoutPdfExtensionOf | frontend/src/pages/inventor/UploadPatent.tsx:51 | a stem followed by ".pdf" or ".PDF" gives back the stem |
| UploadPatent.LawyerField | frontend/src/pages/inventor/UploadPatent.tsx:78 | a lawyer is sent exactly when one is selected and its id is not 0 |
| UploadPatent.PatentNumberField | frontend/src/pages/inventor/UploadPatent.tsx:79 | absent exactly for a blank number, else the trimmed number |
| UploadPatent.ProgressSteps | frontend/src/pages/inventor/UploadPatent.tsx:71-96 | a prefix of 10, 30, 70, 100: all four exactly when every request goes through, else one value per request started |
| UploadPatent.UploadForm.HandleFileSelect | frontend/src/pages/inventor/UploadPatent.tsx:35-55 | no file changes nothing; a non-PDF or one over 50 MiB is refused with its message and not kept; otherwise it is kept, the error cleared, and an empty title filled with the name without ".pdf" |
| UploadPatent.UploadForm.HandleSubmit | frontend/src/pages/inventor/UploadPatent.tsx:57-100 | a blank title, then a missing file, are reported and send nothing; otherwise the trimmed title is sent, progress steps as the requests go, success moves to the new disclosure at 100, and failure resets progress to 0 with the detail or a default error |
| VideoChat.JsRem | frontend/src/components/common/VideoChat.tsx:167-168 | JavaScript's remainder: the usual remainder for non-negative operands, between -b and 0 for negative ones |
| VideoChat.SplitDuration | frontend/src/components/common/VideoChat.tsx:164-168 | for a non-negative length, hours, minutes below 60 and seconds below 60 that add back up to it; for a negative one, all parts non-positive |
| VideoChat.FormatDuration | frontend/src/components/common/VideoChat.tsx:161-177 | hours, minutes and seconds when there are hours; minutes and seconds when there are minutes; seconds alone otherwise |
| VideoChat.FormatDurationShape | frontend/src/components/common/VideoChat.tsx:161-177 | under a minute shows the seconds only, under an hour minutes and seconds, otherwise all three; a negative length shows negative seconds only |
| VideoChat.FinalTextEmpty | frontend/src/components/common/VideoChat.tsx:91-107 | the collected text is empty exactly when no result in the range is final |
| VideoChat.FinalTextSplit | frontend/src/components/common/VideoChat.tsx:95-102 | two consecutive ranges of results are collected one after the other |
| VideoChat.FinalTextOne | frontend/src/components/common/VideoChat.tsx:96-98 | one final result is collected as its text and one space |
| VideoChat.SentTranscript | frontend/src/components/common/VideoChat.tsx:141 | never empty, and the recorded transcript whenever there is one |
| VideoChat.SilentCallNotSummarised | frontend/src/components/common/VideoChat.tsx:141 | a call with no recognised speech is never summarised by the backend |
| VideoChat.CallPanel.OnResult | frontend/src/components/common/VideoChat.tsx:91-107 | the transcript grows by exactly the final results from the result index on, each with a space; nothing else changes |
| VideoChat.CallPanel.EndCall | frontend/src/components/common/VideoChat.tsx:117-159 | with a session the backend gets its id, the transcript or placeholder and the whole seconds elapsed; a failure keeps the call up and alerts; otherwise the call and recording end with the updated session; the summary spinner ends off |
| SmartMigrate.ColumnExists | backend/scripts/smart_migrate.py:17-23 | true exactly when the table exists and has the column |
| SmartMigrate.CurrentVersion | backend/scripts/smart_migrate.py:25-34 | no version exactly when the query fails or gives no row; else the first row's value |
| SmartMigrate.PlanCases | backend/scripts/smart_migrate.py:68-103 | a versioned or fresh database is upgraded to head; an unversioned one is stamped at the revision its tables show, then upgraded unless that is head |
| SmartMigrate.InferredRevisionCases | backend/scripts/smart_migrate.py:74-95 | head exactly when messages, patent_drafts.full_text and comments.selected_text all exist; the initial revision without messages; the messages revision with messages but no full_text |
| SmartMigrate.PlanEndsAtHead | backend/scripts/smart_migrate.py:68-103 | one or two steps, the last stamping or upgrading to head, so running the plan always leaves the database at head |
| Ordering.SortBySorted | frontend/src/components/HighlightableText.tsx:41 | the sort's result is ordered by the key and is a permutation of its input |
| Ordering.SortByStable | frontend/src/components/HighlightableText.tsx:41 | elements with equal keys keep their input order |
| Strings.TrimEnds | frontend/src/components/CommentThread.tsx:28 | `trim()` leaves no whitespace at either end, and the result is empty exactly when the whole string is whitespace |
| Strings.TrimWithin | frontend/src/components/HighlightableText.tsx:89 | trimming a slice of a text gives the part of the text that starts after the slice's leading whitespace |
| Strings.ToLower | backend/app/api/v1/endpoints/files.py:19 | each character lower-cased, the length kept |
| Strings.ToLowerIdempotent | backend/app/api/v1/endpoints/files.py:19 | lower-casing twice is lower-casing once |
| Strings.Find | backend/app/services/ai_service.py:121 | -1 exactly when the character is absent, else the position of its first occurrence |
| Strings.RFind | backend/app/services/ai_service.py:122 | -1 exactly when the character is absent, else the position of its last occurrence |
| Strings.SplitCount | backend/app/core/config.py:55 | `split` gives one piece more than there are separators |
| Strings.JoinSplit | backend/app/core/config.py:55 | joining the pieces of a split with the separator gives the string back |
| Strings.SplitJoin | backend/app/core/config.py:55 | splitting a join of pieces free of the separator gives the pieces back |

## Left out

- Rendering and styling: the JSX trees, badge colour maps and page layouts are presentation, not logic.
- The login, signup and refresh requests of `authService` (frontend/src/services/authService.ts:5-18): they are network calls. Their answers are inputs of `AuthContext.AuthProvider.SignIn`.
- `AuthContext.AuthProvider.SignIn` stands for both `login` and `signup`, which differ only in the request they send.
- `AuthContext.AuthProvider.Mount`: when parsing the stored user throws, the effect aborts and `isLoading` stays true. The model returns `threw` and changes nothing, as the code does. What React then shows is not modelled.
- `JSON.stringify`/`JSON.parse` are a codec parameter, required to invert each other on users. A stored value that parses to a truthy non-user is outside the model.
- Disk I/O: writing, reading and removing uploaded files, and the temporary file of the patent analysis. Only the rows and the decisions are modelled. The random part of a stored file name is an input.
- The language-model clients, pdfplumber, `json.loads`, the section and claim regular expressions, uuid generation and password hashing are parameters: foreign code.
- The wording of the prompts sent to the language model is not modelled. Only the parts that vary with the input are: the excerpt, the patent number and the message lists.
- Timestamps: `created_at`, `started_at` and `ended_at` come from the clock. Tables keep insertion order, and `order_by` is a stable sort of it, so rows with equal timestamps keep the order the database happens to return.
- `SharedFiles.FormatFileSize` gives the exact quotient, not the one-decimal rounding of `toFixed(1)`: floating-point formatting is not modelled.
- `CommentThread.FormatTimestamp` takes the locale date string as an input: `toLocaleString` is foreign. Invalid dates (NaN) are not modelled.
- `Strings.ToLower` folds ASCII letters only. JavaScript's `toLowerCase` and Python's `lower` also fold other letters, which no extension or path in the model contains.
- Async interleaving, React state batching and stale closures: each handler is a sequential method over a snapshot of its state.
- React Router's URL decoding, repeated slashes and everything outside the route table.
- The pages' `loadDisclosure`, `loadComments`, `getStatusBadge` and `handleSaveDocument`: they load data from the backend or are presentation.
- The camera, microphone, MediaRecorder and SpeechRecognition objects of the video call. Recognition results are an input sequence.
- `LawyerDetail.LawyerPage.SendInventorMessage`: the canned reply is chosen with `Math.random`, so its index is an input. The delay before it appears is not modelled.
- `Comments.CreateComment` stores the selection fields as the request gives them, which is what the migrated schema supports. As written, the request schema `CommentCreate` (backend/app/schemas/comment.py:7-10) declares no `selected_text`, `selection_start` or `selection_end`. Reading them (backend/app/api/v1/endpoints/comments.py:76-78) raises `AttributeError`, so every create answers 500. `CommentResponse` (backend/app/schemas/comment.py:19-34) also drops these fields from every answer, so no highlight from the backend ever reaches `HighlightableText`. The model does not capture these as-written consequences.
- `Drafts.UpdateDraftFullText` stores the full text in the draft row's `full_text` column, which the migrations add (backend/scripts/smart_migrate.py:57-95). As written, the ORM class `PatentDraft` (backend/app/models/patent_draft.py:16-52) maps no `full_text`. The assignment at backend/app/api/v1/endpoints/drafts.py:107 then sets a plain attribute: it is returned once and never stored. The model does not capture this.
- Why the model reads the migrated schema rather than the ORM and schema classes: those classes are inconsistent elsewhere too. `Message.sender` names a back reference `User.messages` (backend/app/models/message.py:29) that `User` does not define (backend/app/models/user.py:32-35). Taken literally, the mappers would refuse to configure and no endpoint would answer at all.
- Frontend strings (selection offsets, `substring`, `trim`) are read as sequences of characters. JavaScript counts UTF-16 code units, so a selection that splits a surrogate pair cannot be represented, and offsets past a non-BMP character differ by one per such character.
- `Database.Db`: a single `nextId` counter hands out the ids of every table, whereas each table has its own autoincrement sequence. Only freshness of the ids is modelled, not their values.
- Pydantic's request validation (422 answers), the unmounted routers of backend/app/api/v1/router.py and notification side effects are not part of this model.
- `AiProcessing.ProcessDisclosure`: a failure before the draft lookup would reference an unassigned `draft` (backend/app/tasks/ai_processing.py:62). Failures are modelled only after the lookup.
- `VideoSessions.EndVideoSession` takes the summariser's answer as an input, because the language-model call is foreign.
- `Dependencies.ParseInt` models `int()` on decimal digits with an optional sign and surrounding whitespace. Underscores between digits and non-ASCII digits are not modelled.
- `Files.PreviewFile` does not model the file streaming; it models only the media type and the disposition.
- `Dependencies.PyListStr` writes each item between single quotes. Python's `repr` switches to double quotes or escapes when an item itself holds a quote, a backslash or an unprintable character. Role names hold none of these, so this is not modelled.
- `UploadPatent.UploadForm.HandleSubmit`: the link step posts to `/disclosures/{id}/set-patent-file` (frontend/src/services/disclosureService.ts:39-42). backend/app/api/v1/endpoints/disclosures.py defines no such route. Against that backend, every submission would end as `FailsAt(2, Some("Not Found"))`, after the disclosure and the file were already created. The model takes how far the requests get as its `run` parameter, so it admits that outcome but does not derive it from the backend model.

## Findings

| source | as written | input that shows it | evidently intended | confidence | as-written member | corrected member |
|---|---|---|---|---|---|---|
| backend/app/core/dependencies.py:79-92 | the allowed roles are normalised with `str()`, which for the role enum gives "UserRole.ADMIN", while the user's side is its `.value`, "ADMIN"; the two never match | an admin calling an endpoint guarded by `RoleChecker([UserRole.ADMIN])` gets 403 | a user passes exactly when its role is one of the allowed roles | high, not executed | Dependencies.AsWrittenRejectsEveryone | Dependencies.RoleChecker |
| frontend/src/components/HighlightableText.tsx:87-107 | the start offset counts the untrimmed selection's prefix, the length is the trimmed selection's | selecting " b" in "a b" reports the text "b" at offsets 1 to 2, where the text is " b" | the offsets delimit the reported trimmed text | high, not executed | HighlightableText.MouseUpAsWrittenShifted | HighlightableText.MouseUp |
| backend/app/api/v1/endpoints/drafts.py:74-80 | the `sections` JSON column is changed in place and not flagged as modified, so the commit does not write it | changing section "background" from "old" to "new" leaves "old" stored | the stored sections hold the new section text | medium, not executed | Drafts.SectionEditLostExample | Drafts.UpdateDraftSection |
| backend/app/services/ai_service.py:368-380 | with no '{' in the reply the method falls through and returns None; the raw fallback is reached only when the braced text fails to parse | a reply with no braces at all | every reply that does not parse gives the raw analysis | high, not executed | AiService.NoBracesNoAnalysis | AiService.AnalyzePatent |
| backend/app/services/ai_service.py:181-202 | the summariser has branches for OpenAI and Anthropic only, so under Gemini it returns None | any transcript with the Gemini provider | every provider gives a summary | high, not executed | AiService.GeminiSummaryMissing | AiService.Summarize |
