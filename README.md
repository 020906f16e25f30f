# salesGPT core, modelled in Dafny

salesGPT takes a company's website URL, scrapes the page, asks a language
model for a business analysis, and then generates sales e-mails.
A Next.js frontend sits in front of it, with sign-in through a hosted
identity provider.

This project models the deterministic routines inside that pipeline and
proves their properties. Backend:

- `Text`, `Seqs`, `Html`: shared building blocks.
  - Python's `str.split()`, `' '.join`, `str.strip()`, `lower()` and `in`
    on strings.
  - First match in document order.
  - The parsed page, as sequences of meta elements, anchors and text
    nodes. Each anchor and text node carries the names of its enclosing
    elements, so element removal can be stated.
- `Scraper`: the current `WebScraper` (`backend/app/services/scraper.py`).
  Covers whitespace cleaning, the meta-description fallback, social-link
  collection into a set, the contact e-mail pick, the main-content join and
  the scraped record.
- `LegacyScraper`: the older `WebScraper` in `backend/main.py`.
  - Uncleaned meta content, which raises when the attribute is missing.
  - Case-sensitive social links, in order and with duplicates.
  - A stripped e-mail.
  - An uncleaned title.
- `Analyzer`: `content_for_analysis` (five keys read from the scraped
  dictionary with defaults, content cut to 5000 characters) and the notes
  line of the analysis prompt.

Frontend:

- `Js`, `Identity`: JavaScript values, truthiness, `err.message ||
  fallback`, template-literal printing, and the session object.
- `RouteGuard`: the protected-route test and the login redirect of
  `frontend/src/app/middleware.js`.
- `HttpClient`: the shared HTTP client of `services/axios/instance.js`.
  - Its default headers, a class updated in place.
  - The request interceptor, which attaches the bearer token.
  - The response interceptor, which on a 401 signs out and moves the window
    to `/auth`, then always rejects.
- `AuthContext`: the `AuthProvider` as a class.
  - Its state cells are `user`, `session`, `loading` and `error`.
  - The registered listener and the router's navigations are recorded in
    fields.
  - Its methods include the auth-change handler, which keeps the
    Authorization default header in step with the session.
- `SignupPage`, `ForgotPasswordPage`: the form classes with their
  `formError` and `success` cells and the ordered validation checks.
- `EmailEndpoints`: the e-mail generation payload, the two request paths and
  the unwrapping of `.data`.

Modelling conventions:

- Every call into code outside the model becomes a parameter. This covers
  the identity provider, `urljoin` and the HTTP exchange.
  - An awaited provider call's result is an `Outcome` (`Succeeded` or
    `Threw(err)`).
  - `urljoin` is a function `(string, string) -> string`.
  - The HTTP exchange is a function from request to response.
- The methods return the calls they make (`ProviderCall`), so the
  arguments sent to the provider are part of each contract.
- Two current behaviours are stated as properties and not treated as
  errors:
  - **The auth-change handler with a tokenless session.** It writes
    `Bearer undefined` (or `Bearer ` for an empty token) into the default
    header. The request interceptor attaches no header in that case, so
    that text is sent (`AuthContext.FalsyTokenStillSetsDefault`).
  - **A successful `signOut`.** The header is deleted after `signOut`
    resolves. Its order relative to the SIGNED_OUT event is not modelled.

## Model

| member | source | states |
|---|---|---|
| Seqs.FirstMatch | backend/app/services/scraper.py:73-75 | the index returned satisfies the test and every earlier one fails it; None exactly when no element satisfies it |
| Text.Join | backend/app/services/scraper.py:31 | `sep.join(parts)`: the parts in order with one separator between each two (definition; its length is in JoinLength) |
| Text.JoinLength | backend/main.py:64 | a join of n parts is their concatenation plus n - 1 separators long |
| Text.StartsWith | frontend/src/app/middleware.js:24 | `startswith`: the prefix is no longer than the string and equals its first characters (definition) |
| Text.StartsWithShape | backend/app/services/scraper.py:59 | a string starts with a prefix exactly when it is that prefix followed by the rest of the string |
| Text.Contains | backend/app/services/scraper.py:61 | `pattern in s`: the pattern starts the string or occurs in its tail (definition) |
| Text.ContainsOccurs | backend/main.py:71 | `pattern in s` holds exactly when the pattern occurs at some index of the string |
| Text.IsSpace | backend/app/services/scraper.py:31 | the code points `str.isspace()` accepts, on which `split()` and `strip()` cut (definition) |
| Text.Split | backend/app/services/scraper.py:31 | `str.split()` yields non-empty words without whitespace |
| Text.SplitJoin | backend/app/services/scraper.py:31 | splitting the space-join of words gives back exactly those words |
| Text.SplitSeparated | backend/app/services/scraper.py:31 | splitting two strings separated by whitespace gives the words of the first followed by the words of the second |
| Text.JoinIsClean | backend/app/services/scraper.py:31 | joining words with one space leaves no leading, trailing or repeated whitespace |
| Text.JoinSplitOfClean | backend/app/services/scraper.py:31 | a clean string is the space-join of its own words |
| Text.ConcatSplit | backend/app/services/scraper.py:31 | the words of a string, concatenated, are its non-whitespace characters in order |
| Text.NonSpaceOfJoin | backend/app/services/scraper.py:31 | space-joining words adds no non-whitespace character |
| Text.Lower | backend/app/services/scraper.py:61 | lowercasing keeps the length and maps each character to its lowercase |
| Text.LowerOfNoUpper | backend/app/services/scraper.py:54 | a string without capitals is its own lowercase |
| Text.ContainsLower | backend/app/services/scraper.py:61 | a lowercase pattern found in a string is still found after lowercasing it |
| Text.Strip | backend/main.py:86 | the result has no whitespace at either end and is the input minus whitespace-only ends |
| Text.StripIdempotent | backend/main.py:86 | stripping twice is stripping once |
| Html.SurvivingHrefs | backend/app/services/scraper.py:40-41 | each href kept comes from an anchor with no removed element around it; never more hrefs than anchors |
| Html.SurvivingHrefsSingle | backend/app/services/scraper.py:40-41 | one anchor keeps its href exactly when none of its enclosing elements is removed |
| Html.SurvivingHrefsKeeps | backend/app/services/scraper.py:40-41 | an anchor outside every removed element has its href kept |
| Html.SurvivingHrefsAppend | backend/main.py:54-55 | the hrefs surviving in two runs of anchors are those of the first run followed by those of the second, so every surviving anchor is kept in document order |
| Html.SurvivingTexts | backend/app/services/scraper.py:40-41 | each text kept comes from a text node with no removed element around it; never more texts than nodes |
| Html.SurvivingTextsSingle | backend/app/services/scraper.py:40-41 | one text node keeps its text exactly when none of its enclosing elements is removed |
| Html.SurvivingTextsAppend | backend/main.py:54-55 | the texts surviving in two runs of nodes are those of the first run followed by those of the second, so every surviving text is kept in document order |
| Scraper.CleanText | backend/app/services/scraper.py:30-31 | '' for None or empty input; the result is clean (no whitespace at the ends, single spaces between words); its non-whitespace characters are the input's, in order |
| Scraper.CleanTextIdempotent | backend/app/services/scraper.py:31 | cleaning cleaned text returns it unchanged |
| Scraper.CleanTextFixedPoints | backend/app/services/scraper.py:31 | cleaning leaves a string unchanged exactly when it is clean |
| Scraper.CleanTextKeepsWords | backend/app/services/scraper.py:31 | cleaning keeps the word sequence |
| Scraper.IsNameDescription | backend/app/services/scraper.py:34 | a meta whose name is 'description' or 'Description' (definition) |
| Scraper.IsPropertyDescription | backend/app/services/scraper.py:36 | a meta whose property is 'og:description' or 'twitter:description' (definition) |
| Scraper.ContentOf | backend/app/services/scraper.py:37 | '' when the content attribute is missing; otherwise the content cleaned by `_clean_text`, so clean text with the attribute's non-whitespace characters in order |
| Scraper.MetaDescription | backend/app/services/scraper.py:33-37 | the description is always clean text |
| Scraper.MetaDescriptionPrefersName | backend/app/services/scraper.py:34-37 | the first name=description/Description meta decides; missing content there gives '' with no fall-back |
| Scraper.MetaDescriptionFallsBack | backend/app/services/scraper.py:35-37 | without a name meta, the first og:/twitter:description property meta decides |
| Scraper.MetaDescriptionAbsent | backend/app/services/scraper.py:33-37 | with neither kind of meta the description is '' |
| Scraper.IsAbsolute | backend/app/services/scraper.py:59 | an href starting with 'http://' or 'https://' (definition) |
| Scraper.Resolve | backend/app/services/scraper.py:59-60 | an href starting with http:// or https:// is kept verbatim, any other goes through urljoin with the base URL |
| Scraper.AnyPatternIn | backend/app/services/scraper.py:61 | `any(pattern in s ...)`: the first pattern occurs or one of the rest does (definition) |
| Scraper.AnyPatternInIff | backend/app/services/scraper.py:61 | true exactly when some pattern of the list occurs in the string |
| Scraper.IsSocial | backend/app/services/scraper.py:61 | a link is social when its lowercase form contains one of the four patterns (definition) |
| Scraper.ResolveAll | backend/app/services/scraper.py:57-60 | each href is kept verbatim when it starts with http:// or https://, and passed through urljoin with the final URL otherwise |
| Scraper.SocialSet | backend/app/services/scraper.py:55-62 | every collected link contains a social pattern once lowercased |
| Scraper.SocialSetMembers | backend/app/services/scraper.py:57-62 | a link is collected exactly when it is among the resolved hrefs and matches |
| Scraper.SocialLinkSetMembers | backend/app/services/scraper.py:53-64 | the links found are exactly the matching resolved hrefs |
| Scraper.AbsoluteSocialHrefKept | backend/app/services/scraper.py:58-62 | an absolute matching href is returned verbatim, in its original case |
| Scraper.RelativeHrefResolved | backend/app/services/scraper.py:59-62 | a relative href is returned in its resolved form when that matches |
| Scraper.CollectSocialLinks | backend/app/services/scraper.py:54-62 | the loop's set is exactly the set of resolved hrefs whose lowercase form contains a social pattern |
| Scraper.SetToList | backend/app/services/scraper.py:64 | `list(set)`: a duplicate-free list with exactly the set's members |
| Scraper.FindSocialLinks | backend/app/services/scraper.py:53-64 | the returned list has no duplicates and holds exactly the social link set |
| Scraper.HasAt | backend/app/services/scraper.py:73 | a text node's string contains '@' (definition; the legacy test at backend/main.py:84 is the same) |
| Scraper.ExtractContactInfo | backend/app/services/scraper.py:66-77 | keys are email, phone and address; phone and address are None; email is None exactly when no text has '@', otherwise the cleaned first such text |
| Scraper.FirstIsEmail | backend/app/services/scraper.py:73-75 | the cleaned text at the first '@' match is the cleaned first text containing '@', and None exactly when no text contains one |
| Scraper.CleanEach | backend/app/services/scraper.py:48-49 | one cleaned text per element, in order |
| Scraper.CleanEachAppend | backend/app/services/scraper.py:48-49 | cleaning one more element appends its cleaned text |
| Scraper.ExtractMainContent | backend/app/services/scraper.py:39-51 | the content is the space-join of the cleaned element texts, in order |
| Scraper.Title | backend/app/services/scraper.py:18 | '' without a title element; otherwise exactly the cleaned title string, always clean |
| Scraper.ScrapeDocument | backend/app/services/scraper.py:9-26 | title, description, content and final URL are the helpers' results; the links are duplicate-free and exactly the social links among the surviving anchors; contact info has phone and address None and email the cleaned first surviving text with '@', None without one; links and contact texts are read after script, style, nav and footer elements are removed |
| LegacyScraper.IsDescriptionName | backend/main.py:49 | a meta whose name is exactly 'description' (definition) |
| LegacyScraper.MetaDescription | backend/main.py:48-50 | '' when no name=description meta exists; otherwise the first one's raw content, or the missing-attribute failure |
| LegacyScraper.ExtractMainContent | backend/main.py:52-64 | the per-tag texts joined with one space, in tag order |
| LegacyScraper.IsSocial | backend/main.py:71 | an href is social when it contains one of the four patterns, case-sensitively (definition) |
| LegacyScraper.SocialFilter | backend/main.py:66-74 | every returned href is a case-sensitive match and one of the input hrefs |
| LegacyScraper.SocialFilterKeeps | backend/main.py:70-72 | every matching input href is among the kept ones |
| LegacyScraper.SocialFilterSingle | backend/main.py:70-72 | one href is kept exactly when it matches |
| LegacyScraper.SocialFilterAppend | backend/main.py:68-74 | filtering two runs of hrefs gives the first run's matches followed by the second's, so the matches keep document order |
| LegacyScraper.SocialFilterCounts | backend/main.py:68-74 | each matching href is kept as often as it occurs and others never |
| LegacyScraper.FindSocialLinks | backend/main.py:66-74 | the loop returns exactly the filtered hrefs |
| LegacyScraper.PatternsAreLowercase | backend/main.py:67 | none of the four patterns has a capital letter |
| LegacyScraper.AnyPatternInLower | backend/main.py:71 | a case-sensitive match on the raw href is also a match after lowercasing |
| LegacyScraper.LegacyAbsoluteLinksKept | backend/main.py:70-72 | on the same href list, every absolute link the legacy filter keeps is in the current scraper's link set |
| LegacyScraper.LegacyDocumentLinksKept | backend/main.py:52-74 | on one document, an absolute matching anchor outside script, style, nav and footer elements is reported by both scrapers; anchors inside nav or footer are not covered, since only the current scraper removes those |
| LegacyScraper.ExtractContactInfo | backend/main.py:76-88 | keys are email, phone and address; phone and address are None; email is None exactly when no text has '@', otherwise the first such text stripped |
| LegacyScraper.FirstIsEmail | backend/main.py:83-86 | the stripped text at the first '@' match is the stripped first text containing '@', and None exactly when no text contains one |
| LegacyScraper.Title | backend/main.py:39 | '' without a title element, otherwise the title string as is, possibly None |
| LegacyScraper.ScrapeDocument | backend/main.py:31-46 | the scrape fails exactly when the description meta lacks content; otherwise each field is the corresponding helper's result, and contact info has phone and address None and email the stripped first text with '@' surviving script and style removal, None without one |
| Analyzer.Get | backend/app/services/analyzer.py:15-19 | `dict.get(key, default)`: the stored value when the key is present, the default otherwise |
| Analyzer.ScrapedAsDict | backend/app/services/scraper.py:17-24 | the scraper's record as a dictionary: the five record keys plus final_url; title, meta_description, main_content and final_url as strings, social_links the links in order, contact_info the same keys with each value as a string or None |
| Analyzer.Slice | backend/app/services/analyzer.py:17 | slicing a string or list gives a prefix of length at most n, the whole value when it is shorter; any other value raises |
| Analyzer.ContentForAnalysis | backend/app/services/analyzer.py:14-20 | exactly five keys; title, meta_description (renamed description), social_links and contact_info taken from the data or defaulted to '', '', [] and {}; content the cut main content; fails exactly when main content cannot be sliced |
| Analyzer.UnreadKeyIgnored | backend/app/services/analyzer.py:14-20 | keys other than the five read, such as final_url, do not affect the shaped record |
| Analyzer.ScrapedDataShapes | backend/app/services/analyzer.py:12-20 | shaping the scraper's record never fails, keeps title and description, cuts content to its first 5000 characters and drops final_url |
| Analyzer.NotesText | backend/app/services/analyzer.py:63 | None or empty notes give 'No additional notes provided', other notes appear verbatim |
| Js.Truthy | frontend/src/services/axios/instance.js:28 | a possibly undefined string is truthy exactly when present and non-empty, as at AuthContext.js:33 (definition) |
| Js.TemplateText | frontend/src/context/AuthContext.js:47 | `${s}` prints the string itself, or 'undefined' when it is absent (definition) |
| Js.MessageOr | frontend/src/context/AuthContext.js:76 | the error's message when truthy, otherwise the fallback; never empty with a non-empty fallback |
| Js.Prop | frontend/src/services/endpoints/emailEndpoints.js:10-15 | a present property's value, undefined for an absent one |
| Identity.TokenOf | frontend/src/services/axios/instance.js:28 | the session's access token, none without a session |
| Identity.BearerText | frontend/src/context/AuthContext.js:47 | 'Bearer ' followed by the token, or by 'undefined' when the session has none |
| RouteGuard.MatchesRoute | frontend/src/app/middleware.js:23-25 | a route matches a path equal to it or starting with it followed by '/' (definition) |
| RouteGuard.MatchesRouteShape | frontend/src/app/middleware.js:24 | a route matches exactly when it is a prefix of the path that ends the path or is followed by '/' |
| RouteGuard.IsProtected | frontend/src/app/middleware.js:23-25 | some protected route matches the path (definition) |
| RouteGuard.IsProtectedIff | frontend/src/app/middleware.js:6-25 | a path is protected exactly when one of the listed routes is a prefix of it that ends it or is followed by '/' |
| RouteGuard.AnyRouteMatches | frontend/src/app/middleware.js:23-25 | true exactly when some route equals the path or is followed in it by '/' |
| RouteGuard.SubpathProtected | frontend/src/app/middleware.js:23-25 | a path below a protected path is protected |
| RouteGuard.NotBelowRoute | frontend/src/app/middleware.js:24 | a route followed by a character other than '/' does not match |
| RouteGuard.ShortPathNotProtected | frontend/src/app/middleware.js:6-10 | a path of at most 8 characters that is not a listed route is not protected |
| RouteGuard.ProtectedExamples | frontend/src/app/middleware.js:6-25 | /analyze/my and /analyze/my/x are protected; /analyze/myfoo and /analyze are not |
| RouteGuard.Middleware | frontend/src/app/middleware.js:12-37 | a redirect happens exactly for a protected path without a session; it goes to /auth/login on the same origin with redirect set to the original pathname; otherwise the pass-through response |
| RouteGuard.SessionNeverRedirected | frontend/src/app/middleware.js:28 | with a session there is never a redirect |
| HttpClient.RequestToken | frontend/src/services/axios/instance.js:22-36 | a token is attached exactly when the lookup returned a session with a truthy access token |
| HttpClient.AttachToken | frontend/src/services/axios/instance.js:28-30 | Authorization becomes 'Bearer ' plus the token exactly when there is one; otherwise the headers are untouched; other headers always kept |
| HttpClient.AttachTokenIdempotent | frontend/src/services/axios/instance.js:28-30 | attaching twice is attaching once |
| HttpClient.InterceptRequest | frontend/src/services/axios/instance.js:19-37 | the same config is handed on with its headers updated in place as AttachToken says, including when the lookup throws |
| HttpClient.OnFulfilled | frontend/src/services/axios/instance.js:46-48 | responses are handed on unchanged |
| HttpClient.OnRejected | frontend/src/services/axios/instance.js:49-75 | on a 401, one sign-out request and the window on /auth whether or not sign-out throws; otherwise neither; the received error is always the rejection |
| AuthContext.ErrorAfter | frontend/src/context/AuthContext.js:62-78 | the error cell is cleared on success and holds the message or the operation's fallback on failure |
| AuthContext.UserOf | frontend/src/context/AuthContext.js:43 | the session's user, none without a session |
| AuthContext.InStep | frontend/src/context/AuthContext.js:46-50 | the Authorization default header holds the bearer text of the session's token when there is a session, and is absent when there is none (definition) |
| AuthContext.HeadersAfterChange | frontend/src/context/AuthContext.js:46-50 | the Authorization header is in step with the new session (bearer text when there is one, absent when not); other headers kept |
| AuthContext.LastEventDecides | frontend/src/context/AuthContext.js:41-51 | after two auth events the headers are what the second alone would give |
| AuthContext.ContextAgreesWithInterceptor | frontend/src/context/AuthContext.js:47 | for a truthy token the default header and the interceptor's header are the same text |
| AuthContext.FalsyTokenStillSetsDefault | frontend/src/context/AuthContext.js:46-47 | with an empty or absent token the event still sets 'Bearer ' or 'Bearer undefined' while the interceptor attaches nothing |
| AuthContext.AuthProvider.constructor | frontend/src/context/AuthContext.js:12-15 | no user, session or error, loading true |
| AuthContext.AuthProvider.InitAuth | frontend/src/context/AuthContext.js:19-41 | session stored, user taken from it when present, header set only for a truthy token, loading false, listener registered |
| AuthContext.AuthProvider.IsAuthenticated | frontend/src/context/AuthContext.js:177 | `!!user`: true exactly when a user is stored (definition) |
| AuthContext.AuthProvider.OnAuthStateChange | frontend/src/context/AuthContext.js:41-51 | session and user follow the event; the header is in step with it; isAuthenticated holds exactly when the new session has a user |
| AuthContext.AuthProvider.SignUp | frontend/src/context/AuthContext.js:61-79 | the provider is asked with the confirmation link on /auth/callback; error cleared, set to the message or 'Sign up failed' on failure; the outcome rethrown |
| AuthContext.AuthProvider.SignIn | frontend/src/context/AuthContext.js:82-96 | error cleared, set to the message or 'Sign in failed' on failure; the outcome rethrown |
| AuthContext.AuthProvider.SignInWithGoogle | frontend/src/context/AuthContext.js:99-115 | the google OAuth call redirects to /auth/callback; error set to the message or 'Google sign in failed' on failure; rethrown |
| AuthContext.AuthProvider.ResetPassword | frontend/src/context/AuthContext.js:118-131 | the reset link points at /auth/reset-password; error set to the message or 'Password reset failed' on failure; rethrown |
| AuthContext.AuthProvider.UpdatePassword | frontend/src/context/AuthContext.js:134-147 | error set to the message or 'Password update failed' on failure; rethrown |
| AuthContext.AuthProvider.SignOut | frontend/src/context/AuthContext.js:150-163 | success deletes the header and navigates to '/'; failure keeps the header, sets the message or 'Sign out failed' and does not rethrow |
| SignupPage.SignupValidation | frontend/src/app/auth/signup/page.js:38-52 | the fill-out message exactly when a field is empty, the mismatch message exactly when all are filled and passwords differ, the length message exactly when they agree and are shorter than 8, no error otherwise |
| SignupPage.SignupForm.constructor | frontend/src/app/auth/signup/page.js:16-21 | empty fields, no error, no success |
| SignupPage.SignupForm.HandleSignup | frontend/src/app/auth/signup/page.js:33-69 | a failed check reports its message without a provider call; otherwise sign-up with metadata {name}; success clears all four fields, failure reports the message or 'Signup failed. Please try again.' and keeps them |
| SignupPage.SignupForm.HandleGoogleSignup | frontend/src/app/auth/signup/page.js:72-79 | a failure reports the message or 'Google signup failed.'; otherwise formError is untouched |
| ForgotPasswordPage.ResetValidation | frontend/src/app/auth/forgot-password/page.js:26-29 | an error exactly for an empty e-mail, 'Please enter your email address.' |
| ForgotPasswordPage.ForgotPasswordForm.constructor | frontend/src/app/auth/forgot-password/page.js:15-17 | empty e-mail, no error, no success |
| ForgotPasswordPage.ForgotPasswordForm.HandleResetPassword | frontend/src/app/auth/forgot-password/page.js:21-37 | an empty e-mail is reported without a provider call; success sets success with no error; failure reports the message or the default and leaves success false; the e-mail is never written |
| EmailEndpoints.BusinessInfo | frontend/src/services/endpoints/emailEndpoints.js:9-13 | exactly company_name, business_type and product_description, from companyName, businessType and serviceDescription |
| EmailEndpoints.EmailPayload | frontend/src/services/endpoints/emailEndpoints.js:8-17 | exactly three top-level keys; target_persona from targetPersona and tone from tone |
| EmailEndpoints.PayloadRoundTrip | frontend/src/services/endpoints/emailEndpoints.js:8-17 | each of the five form fields can be read back from the payload unchanged |
| EmailEndpoints.OtherParamsIgnored | frontend/src/services/endpoints/emailEndpoints.js:8-17 | other form fields do not affect the payload |
| EmailEndpoints.GenerateEmailPath | frontend/src/services/endpoints/emailEndpoints.js:18 | '/api/v1/generate-email/' followed by the analysis id |
| EmailEndpoints.EmailsPath | frontend/src/services/endpoints/emailEndpoints.js:23 | '/api/v1/emails/' followed by the analysis id |
| EmailEndpoints.PathsDistinct | frontend/src/services/endpoints/emailEndpoints.js:18-23 | distinct ids give distinct paths, and the two endpoints never share a path |
| EmailEndpoints.BodyOf | frontend/src/services/endpoints/emailEndpoints.js:19-24 | the response body on success, the error unchanged otherwise |
| EmailEndpoints.GenerateEmail | frontend/src/services/endpoints/emailEndpoints.js:6-20 | one POST of the payload to the generate path; its body returned, its error passed on |
| EmailEndpoints.GetEmails | frontend/src/services/endpoints/emailEndpoints.js:22-25 | one GET of the e-mails path; its body returned, its error passed on |

## Left out

- Fetching (httpx) and HTML parsing (BeautifulSoup) are not modelled. The
  page is given already parsed.
  - `soup.find`/`find_all` selection, the class-attribute filters and
    `get_text` are the HTML library's work. `ExtractMainContent` therefore
    receives the selected elements' texts as a parameter, in both scrapers.
  - `decompose` is modelled only through each node's set of enclosing
    element names.
- URL resolution (`urljoin`, section 5.2 of RFC 3986) is an uninterpreted
  function parameter.
- Scraper.FindSocialLinks: `list(set)` has an unspecified order. The
  contract fixes only membership and the absence of duplicates.
- Python's `lower()` and JavaScript's `.length` are modelled on characters
  only. Lowercasing covers the ASCII letters only. Whitespace is the
  code-point set of `str.isspace()`. UTF-16 length and full Unicode
  lowercasing are not modelled.
- The exception handling of `scrape_website` and `analyze_company` is not
  modelled beyond the failure value returned:
  - the mapping to HTTP 400/500;
  - the language-model call;
  - the `json.loads` of its answer;
  - the rest of the analysis prompt (the `json.dumps` of the data and of
    the answer template).
- The prompt builders of the legacy `CompanyAnalyzer` and `EmailGenerator`
  in `backend/main.py` are not modelled: their f-strings hold literal braces
  that Python reads as replacement fields.
- Analyzer: a dictionary key stored with value None is returned as is, as
  `.get` does. The slice of a non-string, non-list value is one failure,
  whatever Python exception it raises.
- LegacyScraper.ExtractMainContent: `get_text(strip=True)` belongs to the
  HTML library, so each tag's text is taken as given.
- JSON serialisation of the e-mail payload is not modelled. Axios omits
  properties whose value is undefined, so a missing form field is absent on
  the wire although the payload object has all three top-level keys.
- Async ordering and event delivery from the identity provider are not
  modelled. Each handler runs as one atomic step, with the provider's
  outcome as a parameter.
  - The subscription cleanup that `initAuth` returns is never passed to
    React, so the listener is never removed. The model registers the
    listener and never unregisters it.
- Console logging, toasts, loading spinners, JSX rendering, the redirect of
  an already signed-in user on the sign-up page, and router pushes other
  than sign-out's are not modelled.
- Query-parameter encoding of the redirect URL (`URLSearchParams`
  serialisation) is not modelled. The redirect's query is the single pair
  (`redirect`, pathname) on a freshly built URL.
- The request interceptor's error handler (`instance.js:38-41`) only
  rejects the error it is given and is not modelled.
