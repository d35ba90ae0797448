# AllNoop, the local layer

AllNoop is a browser dashboard of small developer tools. Each tool sends a prompt to a remote
generative-AI service and shows the reply. The remote service is out of scope. This project
models the deterministic code around it and proves what that code does:

- the API-key precedences of the service (`getActiveKey`) and of the start-up shim
  (`initEnvironment` in index.tsx), and how they fit together;
- the missing-key failure, which is raised before each wrapper's `try`;
- `cleanMarkdown`, written as a scanner that follows the backtracking order of
  ```` /```(?:\w+)?\s*([\s\S]*?)\s*```/g ````;
- the ordered error classifier `handleApiError`;
- the result and fallback logic of every service wrapper, for each outcome of the remote call;
- the extension chain and the file name of the result panel's download;
- the highlighted navigation entry, the missing-key banner and the theme switch of the layout;
- the repository name and the fifteen-line git script of the onboarding page;
- the language list of the code simplifier;
- the generate and download handlers of the OG image page, including the file-name slug.

Modules follow the source files:

- `Wrappers`: `Option` and `Result`.
- `Strings`: the JavaScript string operations the code uses, over ASCII.
- `Environment`: index.tsx.
- `Fences`: `cleanMarkdown`.
- `GeminiService`: the rest of services/geminiService.ts.
- `OutputDisplay`, `Layout`, `GithubOnboarding`, `CodeSimplifier`, `OgImageGen`: one module per
  component or page.

Each remote call is a parameter:

- a text reply is `Ok(text)`, with `text` possibly absent, or `Err(message)` for a thrown error;
- an image reply is `Ok(parts)`, with `parts` possibly absent, or `Err(message)`.

A wrapper returns a `Call`: the request it sent, if it got that far, and what it returned
(`Ok`) or threw (`Err`). Components whose fields change become classes. Each event handler is
one method, and the state it leaves is the state after its `finally` block.

Two behaviours of the code are easy to misread:

- `cleanMarkdown` does more than strip one outer pair of backticks. It extracts every fenced
  block, drops the prose around the blocks and joins the bodies with a blank line. A one-word
  body written on the opening line is taken as the tag, so "```SELECT```" gives ""
  (`Fences.OneWordBlockIsTakenAsTag`).
- `handleApiError` tests "429", "403", "401" and then "SAFETY", in that order.

## Model

| member | source | states |
|---|---|---|
| Strings.Or | services/geminiService.ts:9-14 | `a \|\| b` on optional strings: the first operand when it is truthy, else the second; the result is truthy iff either operand is |
| Strings.FirstTruthy | index.tsx:26 | reference definition of a precedence list: the result is the first truthy candidate, and it is absent exactly when no candidate is truthy |
| Strings.Trim | services/geminiService.ts:27 | `trim()` leaves neither end as whitespace, is no longer than its input, and leaves trimmed text unchanged |
| Strings.TrimRemovesSpaceEnds | services/geminiService.ts:27 | the input is a whitespace prefix, the trimmed text, and a whitespace suffix |
| Strings.TrimAllSpace | pages/CodeSimplifier.tsx:17 | a field of whitespace only trims to "", so the blank guard catches it |
| Strings.TrimIdempotent | pages/CodeSimplifier.tsx:34 | trimming an already trimmed answer changes nothing |
| Strings.ToLower | pages/OgImageGen.tsx:32 | `toLowerCase()` keeps the length and lowers exactly the letters A-Z, position by position |
| Strings.FirstOccurrence | pages/GithubOnboarding.tsx:10 | the position found holds the pattern and no earlier position does; when none is found, the pattern occurs nowhere |
| Strings.NotContainsWithoutHead | services/geminiService.ts:41-46 | a text lacking the first character of a pattern does not contain the pattern |
| Strings.ReplaceFirst | pages/GithubOnboarding.tsx:10 | `replace` with a string pattern rewrites only the first occurrence, and leaves a text without one unchanged |
| Strings.Split | pages/GithubOnboarding.tsx:10 | `split(sep)` gives at least one part, no part holds the separator, and a text holding it gives at least two parts |
| Strings.JoinSplit | pages/GithubOnboarding.tsx:10 | joining the parts of a split with the separator restores the text |
| Strings.SplitJoin | pages/GithubOnboarding.tsx:12-28 | splitting a join of separator-free parts gives the parts back |
| Strings.LastPartFollowsLastSeparator | pages/GithubOnboarding.tsx:10 | `pop()` of a split holds no separator, and is the whole text when the text has none |
| Strings.LastPartAfter | pages/GithubOnboarding.tsx:10 | the last part is whatever follows the last separator, whatever precedes it |
| Strings.NatToString | services/geminiService.ts:54 | `${count}` is a non-empty string of decimal digits in canonical form: it starts with '0' only for 0, which gives "0" |
| Strings.NatToStringRoundTrip | services/geminiService.ts:54 | reading those digits back gives the count |
| Environment.DetectedKey | index.tsx:22-26 | `viteKey \|\| windowKey \|\| processKey`, grouped as the shim groups them; DetectedKeyIsFirstTruthy states what it selects |
| Environment.ShimmedFrom | index.tsx:11-36 | the relation between the state before and after the shim; InitEnvironment is proved against it |
| Environment.DetectedKeyIsFirstTruthy | index.tsx:22-26 | the shim's key is the first truthy of import.meta.env.VITE_API_KEY, window.VITE_API_KEY, window.API_KEY, process.env.API_KEY and process.env.VITE_API_KEY, and none is found exactly when none is truthy |
| Environment.Window.InitEnvironment | index.tsx:11-36 | afterwards `process` and `process.env` exist, an existing env keeps its other entries, a detected key is written to process.env.API_KEY and window.API_KEY, and without one no key field changes |
| Environment.ShimTwiceIsShimOnce | index.tsx:22-31 | running the shim on its own result changes nothing |
| GeminiService.GetActiveKey | services/geminiService.ts:8-15 | the `\|\|` chain over the five key sources, in source order; GetActiveKeyIsFirstTruthy states what it selects |
| GeminiService.GetActiveKeyIsFirstTruthy | services/geminiService.ts:8-15 | the service's key is the first truthy of process.env.API_KEY, process.env.VITE_API_KEY, window.API_KEY, window.VITE_API_KEY and import.meta.env.VITE_API_KEY; an empty string counts as absent |
| GeminiService.SameKeyPresence | services/geminiService.ts:8-15 | the service finds a key exactly when the shim would |
| GeminiService.PrecedencesDiffer | services/geminiService.ts:8-15 | a concrete environment in which the service and the shim pick different keys |
| GeminiService.ServiceUsesShimKey | services/geminiService.ts:9 | after the shim, the service uses exactly the key the shim detected, because it reads process.env.API_KEY first; with none detected it has none |
| GeminiService.CreateAiClient | services/geminiService.ts:17-23 | the client is built iff a truthy key exists, with that key; otherwise the error is exactly the missing-key message |
| GeminiService.FirstCodeIn | services/geminiService.ts:41-46 | reference definition of an ordered classifier: the index of the first code contained in the message, none of the earlier ones contained; none when no code is contained |
| GeminiService.HandleApiError | services/geminiService.ts:37-49 | the message of the first of "429", "403", "401", "SAFETY" in the error's message; otherwise "AI Connection Error: " and the message, or the generic text when the message is missing or empty |
| GeminiService.HandleApiErrorTag | services/geminiService.ts:41-48 | every classified or connection-error message begins with the tag of its class |
| GeminiService.CodeMessageTag | services/geminiService.ts:42-46 | each code's message begins with that code's tag |
| GeminiService.ErrorMessagesDistinct | services/geminiService.ts:37-49 | two errors that give the same user-facing message fall in the same class: no two classes share a message |
| GeminiService.UnclassifiedMessageKept | services/geminiService.ts:48 | a non-empty message without a '4' or a capital 'S' is kept after the connection-error prefix |
| GeminiService.NoImageMessage | services/geminiService.ts:208-211 | the image wrapper's own "No image generated." reaches the caller as "AI Connection Error: No image generated." |
| GeminiService.KeyMissingHasNoCode | services/geminiService.ts:20 | the missing-key message holds none of the classified codes' first characters |
| GeminiService.KeyMissingWouldBeRewritten | services/geminiService.ts:17-21 | were the missing-key error caught by a wrapper's `catch` it would reach the user changed, so raising it before the `try` is what keeps it intact |
| GeminiService.Finished | services/geminiService.ts:64-68 | the three ways a wrapper finishes a reply: through cleanMarkdown, trimmed with a fallback, or raw with a fallback; a non-empty fallback makes the result non-empty |
| GeminiService.ActsAs | services/geminiService.ts:97-108 | the specification every text wrapper is proved against: no key, nothing sent and the missing-key error; a key, the prompt sent with it and the reply finished or classified |
| GeminiService.Ask | services/geminiService.ts:97-108 | a text wrapper with no key sends nothing and fails with the missing-key message; with one it sends the prompt with that key, finishes the reply's text, or rethrows through handleApiError |
| GeminiService.MockPromptNamesComplexity | services/geminiService.ts:54 | the prompt names the complexity in lower case |
| GeminiService.GenerateMockData | services/geminiService.ts:51-73 | the prompt is the head sentence plus the format's instruction; JSON asks for a JSON response and returns the raw reply or "[]"; CSV and SQL go through cleanMarkdown |
| GeminiService.Prefix500 | services/geminiService.ts:115 | `substring(0, 500)` is a prefix of the code: the whole code when it has at most 500 characters, else exactly its first 500 |
| GeminiService.DetectLanguage | services/geminiService.ts:110-121 | no key: nothing is sent and the missing-key message is thrown with no fallback; otherwise the first 500 characters are sent and the result is the trimmed reply, or "JavaScript" for an empty reply or a failed request, never empty |
| GeminiService.DetectedLanguageTrimmed | services/geminiService.ts:117 | a detected language has no whitespace at either end |
| GeminiService.SimplifyCode | services/geminiService.ts:97-108 | sends the refactoring prompt for the language and code; the reply goes through cleanMarkdown |
| GeminiService.ConvertJsonToTypes | services/geminiService.ts:144-155 | sends the type-definition prompt; the reply goes through cleanMarkdown |
| GeminiService.GenerateReadme | services/geminiService.ts:157-168 | an absent style is "Standard"; the reply goes through cleanMarkdown |
| GeminiService.GenerateCommitMessage | services/geminiService.ts:170-181 | the trimmed reply, or "chore: update code" when it is missing or blank; a result is never empty and always trimmed |
| GeminiService.SqlToNoSql | services/geminiService.ts:183-194 | sends the conversion prompt for the target; the reply goes through cleanMarkdown |
| GeminiService.GenerateRegex | services/geminiService.ts:75-95 | asks for a JSON response and hands on the reply's text, or "{}" when it is empty |
| GeminiService.GenerateCron | services/geminiService.ts:123-142 | asks for a JSON response and hands on the reply's text, or "{}" when it is empty |
| GeminiService.FirstInlineData | services/geminiService.ts:205-206 | the inline data of the first part that carries any; none exactly when no part does |
| GeminiService.GenerateOgImage | services/geminiService.ts:196-212 | no key: the missing-key message, nothing sent; otherwise the image model gets the prompt, and the result is the PNG data URL of the first part with inline data, "AI Connection Error: No image generated." when no part has any, or the classified error |
| GeminiService.NoKeyNoRequest | services/geminiService.ts:17-21 | with no key every text wrapper written as a function, detectLanguage included, sends nothing and fails with exactly the missing-key message; the method GenerateMockData states the same in its own ensures (through ActsAs) |
| Fences.NextFence | services/geminiService.ts:29 | the nearest position at or after `i` where three backticks start, no fence lying between |
| Fences.Bodies | services/geminiService.ts:29-30 | the `g` scan: at each position a match is taken or the position skipped, resuming after each match; the lemmas below state what it finds |
| Fences.MatchAt | services/geminiService.ts:29 | where the match at the start of a text captures its body and where the text after its closing fence begins |
| Fences.MatchBodyClean | services/geminiService.ts:29 | a captured body is trimmed and holds no fence |
| Fences.BodiesTrimmedAndFenceFree | services/geminiService.ts:29-32 | every captured body is already trimmed and fence-free, so the `trim` in `map` changes nothing |
| Fences.BodiesAtMatch | services/geminiService.ts:29-30 | at an opening fence the match body is captured and the search resumes after its closing fence |
| Fences.BodiesAtProse | services/geminiService.ts:29-30 | a character other than a backtick is skipped |
| Fences.NoFenceInOpening | services/geminiService.ts:29 | no fence starts inside an opening fence's tag or the whitespace after it |
| Fences.BodiesNonEmptyIff | services/geminiService.ts:29-31 | a match is found iff an opening fence is followed by a closing one |
| Fences.TrimEach | services/geminiService.ts:32 | `map(b => b.trim())` trims every body and keeps their number |
| Fences.CleanMarkdown | services/geminiService.ts:25-26 | an absent or empty reply gives "" |
| Fences.CleanMarkdownWithoutFences | services/geminiService.ts:27-34 | without a complete fence pair the reply is only trimmed |
| Fences.CleanMarkdownWithFences | services/geminiService.ts:27-33 | with one, the result is the captured bodies in order, joined by a blank line |
| Fences.CleanMarkdownOfTrimmed | services/geminiService.ts:27-33 | on trimmed text with a match, the bodies as captured are joined |
| Fences.BodiesSkipProse | services/geminiService.ts:29-30 | prose without a backtick before a text does not change the matches found in it |
| Fences.BodiesOfFencedBlock | services/geminiService.ts:29 | a fenced block with a `\w*` tag and a trimmed fence-free body, in front of any text, contributes exactly its body |
| Fences.BodiesOfRender | services/geminiService.ts:29-30 | the matches in a reply made of prose and fenced blocks are the blocks' bodies, in order |
| Fences.RenderTrimmed | services/geminiService.ts:27 | such a reply that does not open with whitespace is already trimmed |
| Fences.CleanMarkdownOfRender | services/geminiService.ts:25-33 | cleanMarkdown of such a reply is its bodies joined by a blank line: prose and tags are dropped |
| Fences.OneWordFenceIsEmpty | services/geminiService.ts:29-33 | fence, word, fence on one line gives "" |
| Fences.OneWordBlockBody | services/geminiService.ts:29-33 | the same word on a line of its own between fences is the result |
| Fences.OneWordBlockIsTakenAsTag | services/geminiService.ts:29 | the optional tag swallows a one-word body written on the opening line, and only there |
| OutputDisplay.FirstRuleExtension | components/OutputDisplay.tsx:24-33 | reference definition of the chain: the extension of the first applicable rule, no earlier rule applying, or "txt" when none applies |
| OutputDisplay.ChainIsFirstRule | components/OutputDisplay.tsx:24-29 | the first five tests as written are the first five rules of the reference chain |
| OutputDisplay.ChainTail | components/OutputDisplay.tsx:30-33 | the last four tests, and the "txt" default, are the rest of the chain |
| OutputDisplay.Panel.constructor | components/OutputDisplay.tsx:11 | an omitted language is "text", an omitted loading flag is false |
| OutputDisplay.Panel.ButtonsEnabled | components/OutputDisplay.tsx:56-66 | both buttons: `disabled={!content \|\| isLoading}` |
| OutputDisplay.Panel.ButtonsAgainstGuard | components/OutputDisplay.tsx:21 | an enabled download button never reaches the empty-content no-op; an empty or loading panel has its buttons disabled |
| OutputDisplay.Panel.HandleCopy | components/OutputDisplay.tsx:14-16 | the content goes to the clipboard and the button shows it was copied |
| OutputDisplay.Panel.HandleDownload | components/OutputDisplay.tsx:20-39 | nothing is offered for empty content; otherwise the file is "allnoop_result." plus the reference chain's extension |
| OutputDisplay.ExtensionIsOneOfTen | components/OutputDisplay.tsx:24-33 | the extension is always one of the ten |
| OutputDisplay.ScriptComesFirst | components/OutputDisplay.tsx:25 | any tag containing "script" gets "ts" |
| OutputDisplay.JavascriptIsTs | components/OutputDisplay.tsx:25-31 | "javascript" gets "ts", not "java" |
| OutputDisplay.SubstringRules | components/OutputDisplay.tsx:25-29 | a tag gets "go" iff it contains "go" and none of the four earlier rules applies, so "django" and "mongo" get "go" |
| Layout.IsActive | components/Layout.tsx:53-56 | "/" is active exactly on "/"; any other path is active iff it is a raw prefix of the pathname |
| Layout.StartsWith | components/Layout.tsx:55 | `startsWith` holds iff the prefix is a prefix |
| Layout.DashboardOnlyOnRoot | components/Layout.tsx:53-54 | "/" prefixes every navigation path yet is active only on "/" |
| Layout.PrefixIsNotSegmentAware | components/Layout.tsx:55 | "/regex" is active on "/regex-tester" and "/cron" on "/cronjobs" |
| Layout.SubPageKeepsEntry | components/Layout.tsx:55 | an entry stays active on its sub-pages |
| Layout.ProbeKey | components/Layout.tsx:14 | without `process` the banner reads window.VITE_API_KEY, with it process.env.API_KEY; the read fails iff `process` has no `env` |
| Layout.BannerAfterShim | components/Layout.tsx:13-18 | after the shim the read cannot fail, and the banner's key is missing exactly when the shim found none |
| Layout.Shell.constructor | components/Layout.tsx:9-10 | the first render is dark with no banner |
| Layout.Shell.CheckApiKey | components/Layout.tsx:13-18 | the banner is switched on when the key read is falsy and never switched off; a failed read changes nothing |
| Layout.Shell.InitTheme | components/Layout.tsx:21-24 | the page adopts the document's dark class |
| Layout.Toggled | components/Layout.tsx:26-36 | toggling negates the mode, sets the class to match and stores "dark" exactly when the new mode is dark, else "light" |
| Layout.Shell.ToggleTheme | components/Layout.tsx:26-36 | the new theme is the toggled one |
| Layout.ToggleTwice | components/Layout.tsx:26-36 | toggling twice restores the mode, with class and stored value in step |
| Layout.ToggleKeepsInStep | components/Layout.tsx:26-36 | after a toggle mode, class and stored value agree, and a toggle always changes an in-step theme |
| GithubOnboarding.RepoName | pages/GithubOnboarding.tsx:10 | split at '/', the last part, the first ".git" removed, and the default for an empty result, so the name is never empty |
| GithubOnboarding.RepoNameOfLastSegment | pages/GithubOnboarding.tsx:10 | only the last '/'-separated segment counts, with its first ".git" removed, and an empty result is 'my-awesome-project' |
| GithubOnboarding.StripGitSuffix | pages/GithubOnboarding.tsx:10 | in a name without a dot, the removed ".git" is the appended one |
| GithubOnboarding.RepoNameOfGitUrl | pages/GithubOnboarding.tsx:10 | a URL ending "/name.git" gives the name |
| GithubOnboarding.RepoNameDefault | pages/GithubOnboarding.tsx:10 | an empty URL or one ending in '/' gives 'my-awesome-project' |
| GithubOnboarding.CommandLines | pages/GithubOnboarding.tsx:12-27 | fifteen lines, the twelfth being the remote line |
| GithubOnboarding.OnlyRemoteLineVaries | pages/GithubOnboarding.tsx:13-27 | every other line is the same for all URLs, and two URLs give the same remote line iff they are equal or one is empty and the other is the placeholder |
| GithubOnboarding.Commands | pages/GithubOnboarding.tsx:12-28 | the fifteen lines joined by line breaks; CommandsSplitIntoLines states that they split back |
| GithubOnboarding.NoBreakInLines | pages/GithubOnboarding.tsx:13-27 | no line holds a line break, given a URL without one |
| GithubOnboarding.CommandsSplitIntoLines | pages/GithubOnboarding.tsx:12-28 | the script splits at line breaks into exactly its fifteen lines, with nothing after "git push -u origin main" |
| GithubOnboarding.Onboarding.HandleCopy | pages/GithubOnboarding.tsx:30-32 | the clipboard gets exactly the script and the flag is set |
| CodeSimplifier.Offer | pages/CodeSimplifier.tsx:36-38 | the list after a detection: `[name, ...prev]` unless the list includes the name; OfferKeepsList and OfferDistinct state its properties |
| CodeSimplifier.OfferKeepsList | pages/CodeSimplifier.tsx:36-38 | afterwards the list holds the detected name and exactly the earlier entries besides, in their order at its end, growing by one iff the name was absent |
| CodeSimplifier.OfferDistinct | pages/CodeSimplifier.tsx:36-38 | the list stays free of duplicates, and offering the same name again changes nothing |
| CodeSimplifier.InitialLanguagesDistinct | pages/CodeSimplifier.tsx:13-14 | the nine initial languages are distinct and include the initial selection |
| CodeSimplifier.GoDownloadsAsGo | pages/CodeSimplifier.tsx:111 | with the panel handed the lowered selection, "Go" downloads as .go |
| CodeSimplifier.ScriptLanguagesDownloadAsTs | pages/CodeSimplifier.tsx:111 | any selection holding "Script" downloads as .ts |
| CodeSimplifier.JavaScriptDownloadsAsTs | pages/CodeSimplifier.tsx:111 | the initial selection "JavaScript" downloads as .ts |
| CodeSimplifier.TypeScriptDownloadsAsTs | pages/CodeSimplifier.tsx:111 | "TypeScript" downloads as .ts |
| CodeSimplifier.Simplifier.constructor | pages/CodeSimplifier.tsx:9-14 | the first render: empty fields, "JavaScript" selected from the initial list |
| CodeSimplifier.Simplifier.SimplifyEnabled | pages/CodeSimplifier.tsx:80 | the Simplify button: `disabled={loading \|\| !inputCode}` |
| CodeSimplifier.Simplifier.DetectEnabled | pages/CodeSimplifier.tsx:62 | the detect button: `disabled={detecting \|\| !inputCode}` |
| CodeSimplifier.Simplifier.ButtonsAgainstGuards | pages/CodeSimplifier.tsx:17-30 | when a handler would act its button is enabled unless its request runs; a whitespace-only field enables both buttons, whose handlers then do nothing |
| CodeSimplifier.Simplifier.SetInputCode | pages/CodeSimplifier.tsx:95 | typing changes only the code |
| CodeSimplifier.Simplifier.SelectLanguage | pages/CodeSimplifier.tsx:73 | choosing an offered language selects it, nothing else changes |
| CodeSimplifier.Simplifier.HandleSimplify | pages/CodeSimplifier.tsx:16-27 | a blank field changes nothing and sends nothing; otherwise the code is simplified for the selected language, a result replaces the output, a failure keeps it, and loading ends |
| CodeSimplifier.Simplifier.HandleAutoDetect | pages/CodeSimplifier.tsx:29-45 | a blank field changes nothing; otherwise the trimmed answer is selected and prepended when absent, a failure changes neither, detection ends, and the selection stays in a duplicate-free list |
| CodeSimplifier.DetectionSelects | pages/CodeSimplifier.tsx:33-39 | with a key detection always succeeds with a trimmed non-empty name, "JavaScript" for an empty answer, which the initial list already offers |
| OgImageGen.Underscored | pages/OgImageGen.tsx:32 | `replace(/\s+/g, '_')` leaves no whitespace, never lengthens, and introduces no character but '_' |
| OgImageGen.UnderscoredNoSpace | pages/OgImageGen.tsx:32 | text without whitespace is left alone |
| OgImageGen.UnderscoredIdempotent | pages/OgImageGen.tsx:32 | replacing twice is replacing once |
| OgImageGen.UnderscoredRun | pages/OgImageGen.tsx:32 | a maximal whitespace run of any length becomes one underscore |
| OgImageGen.SlugIsLowerCase | pages/OgImageGen.tsx:32 | the slug holds no capital |
| OgImageGen.OgFileName | pages/OgImageGen.tsx:32 | the name starts "og_image_", ends ".png", and holds neither whitespace nor capitals |
| OgImageGen.ToLowerKeepsLower | pages/OgImageGen.tsx:32 | a title without capitals is its own lower case |
| OgImageGen.TwoWordFileName | pages/OgImageGen.tsx:32 | two lower-case words around any whitespace run are named with one underscore between |
| OgImageGen.AllNoopFileName | pages/OgImageGen.tsx:32 | "all \t noop" is saved as og_image_all_noop.png |
| OgImageGen.GeneratedUrl | pages/OgImageGen.tsx:18-20 | the URL the page shows after a request: the service's data URL, or "" when it threw; GeneratedUrlIsPng states its properties |
| OgImageGen.GeneratedUrlIsPng | pages/OgImageGen.tsx:18-20 | a shown image is a PNG data URL; none is shown iff there is no key, the request failed or no part carried inline data |
| OgImageGen.OgPage.constructor | pages/OgImageGen.tsx:8-12 | the first render: every field empty, not loading |
| OgImageGen.OgPage.GenerateEnabled | pages/OgImageGen.tsx:93 | the generate button: `disabled={loading \|\| !title}` |
| OgImageGen.OgPage.ButtonAgainstGuard | pages/OgImageGen.tsx:15 | an enabled button always gets past the empty-title guard; without a title the button is disabled |
| OgImageGen.OgPage.SetFields | pages/OgImageGen.tsx:59-85 | typing changes the three fields only |
| OgImageGen.OgPage.HandleGenerate | pages/OgImageGen.tsx:14-26 | no title: nothing happens; otherwise the prompt for the fields is sent, the page ends showing the returned URL or nothing on failure, and loading ends |
| OgImageGen.OgPage.HandleDownload | pages/OgImageGen.tsx:28-34 | nothing without an image; otherwise a link to it named after the title |

## Left out

- The remote SDK calls, their response schemas and image configuration: each outcome is a parameter (the reply's text and parts, or the thrown message).
- `JSON.parse` in generateRegex and generateCron: the model stops at the text handed to the parser.
- `console.log`, `console.warn` and `console.error`: output only.
- The other pages (mock data, JSON types, regex, cron, README, commit message, SQL), App.tsx, Dashboard, Docs and Tooltip: their handlers only guard, await a service call and store the result. The service calls are modelled.
- Timers that reset the copied flags, the clipboard's own behaviour, Blob and object URLs, and the link click: browser I/O. The copied text and the file name are modelled.
- The theme's DOM class and its local-storage entry are two fields; the `dark` class is not read back from a real document.
- `\s`, `\w`, `trim` and `toLowerCase` are ASCII only. Unicode whitespace and letters are not modelled.
- Strings are sequences of characters rather than UTF-16 code units, so `substring(0, 500)` counts characters.
- `MockDataRequest.count` is a natural number; the range input gives only whole numbers.
- A `process` global that is undeclared, as opposed to undefined, is not modelled: `typeof process` is taken to read `window.process`.
- Layout.ProbeKey: the TypeError thrown when `process` exists without `env` is an `Err` value, and the effect then stops.
- Each handler is one step. Async interleaving, concurrent clicks and closures over stale state are not modelled. The states in the middle of a handler are not observable either, for example CodeSimplifier's `loading` set to true, or OgImageGen's cleared `imageUrl` while the request runs.
- CodeSimplifier.Simplifier.SelectLanguage: requires the choice to be an offered language, as the select lists only `languages`.
- The onboarding page's URL field is a plain field; typing into it is not a separate method.
