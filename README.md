# Bloglist backend core in Dafny

A model of the logic inside a small Express/Mongoose blog backend. The model has three parts:

- **List helpers** (`ListHelper`): folds over a list of blog records. They give the total of the likes, the most-liked blog, and the author with the most blogs or the most likes. Each `reduce` is an index fold. The per-author dictionary that `mostBlogs` and `mostLikes` build in place is a loop (`TallyByAuthor`). The loop keeps the dictionary's keys in insertion order, because the argmax over `Object.keys` follows that order. The reference definitions are `Sum`, `AuthorTotal`, `Authors` and `FirstBy`. The lemmas tie each fold to them: the sum of the likes; the earliest most-liked blog; the author whose total no other author beats, with ties going to the author whose first blog comes first.
- **Middleware** (`Middleware`): the request is a class. `TokenExtractor` sets its token and `UserExtractor` sets its user. Each returns how the middleware ended (`next()`, `next(error)` or a response). `jwt.verify` and `User.findById` are function parameters. The ordered checks of `userExtractor` are the function `Authorize`. The error handler is `ErrorHandler`, and the 404 handler for unmatched routes is `UnknownEndpoint`.
- **Blog routes** (`BlogsController`): the checks of POST (title, then url) and the four-field record that POST and PUT build. The collection these routes work on is a class, `BlogStore`, with GET, POST, PUT and DELETE as its methods.

`wrappers.dfy` holds `Option` and `Result`. `http.dfy` holds errors, responses and the JavaScript truthiness of an optional string.

## Model

| member | source | states |
|---|---|---|
| ListHelper.Dummy | utils/list_helper.js:1-3 | returns 1 for every list, the empty list included |
| ListHelper.LikesFromIsSum | utils/list_helper.js:6 | the `reduce` over the rest of the list, started from the sum of the prefix, gives the sum of all likes |
| ListHelper.TotalLikesIsSum | utils/list_helper.js:5-7 | totalLikes equals the sum of `likes` over all blogs, and is 0 for the empty list |
| ListHelper.FavoriteBlog | utils/list_helper.js:9-21 | the result is empty (`{}`) exactly when the list is empty |
| ListHelper.FavoriteFromIsFirstMostLiked | utils/list_helper.js:12-14 | the fold keeps the earliest blog with the most likes seen so far: strict `>` never replaces a tie |
| ListHelper.FavoriteBlogIsFirstMostLiked | utils/list_helper.js:9-20 | for a non-empty list, the result is the title, author and likes of a blog of the list that has at least as many likes as every blog, and every earlier blog has strictly fewer |
| ListHelper.FirstMostLikedIsUnique | utils/list_helper.js:13 | only one blog is the earliest most-liked, so favoriteBlog's result is determined by the list |
| ListHelper.FirstBy | utils/list_helper.js:26-33 | the index of the first blog by an author, or the list length when there is none |
| ListHelper.AuthorTotalOfAbsent | utils/list_helper.js:27 | an author with no blog has total 0, the value a new key falls back to |
| ListHelper.TallyByAuthor | utils/list_helper.js:26-29 | the dictionary's keys are exactly the authors that occur, in the order of their first blog; each key maps to that author's blog count (mostBlogs) or like sum (mostLikes) |
| ListHelper.AuthorsInFirstAppearanceOrder | utils/list_helper.js:26-31 | an author is a key exactly when some blog is theirs, and the keys are ordered by the index of their first blog |
| ListHelper.TopFromIsFirstTop | utils/list_helper.js:31-33 | the argmax fold keeps the earliest key with the largest total seen so far |
| ListHelper.TopAuthorIsFirstTop | utils/list_helper.js:31-33 | the argmax over `Object.keys` returns the first key whose total is at least every key's total |
| ListHelper.TopAuthorIsUnique | utils/list_helper.js:31-33 | two authors that both win a tally are the same author |
| ListHelper.FirstTopBeatsBlog | utils/list_helper.js:31-33 | no blog's author has a larger total than the key the argmax picks, and a blog before that key's first blog has an author with a strictly smaller total |
| ListHelper.TallyWinnerIsTopAuthor | utils/list_helper.js:26-33 | the key the argmax picks is an author of the list whose total no author beats, and every blog before that author's first blog has an author with a strictly smaller total |
| ListHelper.TopByAuthor | utils/list_helper.js:26-37 | for a non-empty list, returns the winning author and that author's total |
| ListHelper.MostBlogs | utils/list_helper.js:23-39 | empty result exactly for the empty list. Otherwise the author occurs in the list, `blogs` is the number of their blogs, no author has more, and an author whose first blog comes earlier has fewer |
| ListHelper.MostLikes | utils/list_helper.js:41-57 | empty result exactly for the empty list. Otherwise the author occurs in the list, `likes` is the sum of their blogs' likes, no author has more, and an author whose first blog comes earlier has less |
| ListHelper.SumOverAppendedBlog | utils/list_helper.js:27 | appending a blog adds its weight to exactly one of a set of distinct authors' totals |
| ListHelper.AuthorTotalsAddUp | utils/list_helper.js:26-29 | the per-author totals in the dictionary add up to the total weight of the list |
| ListHelper.CountIsLength | utils/list_helper.js:27 | counting 1 per blog gives the length of the list |
| ListHelper.BlogCountsAddUpToLength | utils/list_helper.js:26-29 | mostBlogs's per-author counts add up to the number of blogs |
| ListHelper.AuthorLikesAddUpToTotalLikes | utils/list_helper.js:44-47 | mostLikes's per-author like sums add up to totalLikes of the same list |
| Middleware.BearerToken | utils/middleware.js:6-11 | a token exactly when the header is present and starts with "Bearer " (case-sensitive); the header is then "Bearer " followed by the token |
| Middleware.BearerTokenRoundTrip | utils/middleware.js:7-8 | extracting from "Bearer " + t gives back t |
| Middleware.Request.TokenExtractor | utils/middleware.js:5-13 | sets `request.token` to the extracted token or null and calls `next()` once, whatever the header |
| Middleware.Authorize | utils/middleware.js:16-32 | a null or empty token gives 401 "Token missing"; a token that `jwt.verify` rejects throws, and the failure carries the error `verify` threw; a payload without id gives 401 "Token invalid"; an id with no user gives 404 "User not found"; only a found user is admitted, and it is that user |
| Middleware.AuthorizationOutcome | utils/middleware.js:18-32 | `next()` is called exactly when the user was found; a rejection sends its response; a thrown error goes to `next(error)` |
| Middleware.MissingTokenIsRejectedBeforeDecoding | utils/middleware.js:18-21 | with a missing token the answer does not depend on `jwt.verify` or `User.findById`: neither is consulted |
| Middleware.BareBearerHeaderIsMissingToken | utils/middleware.js:7-20 | the header "Bearer " gives the empty token, which ends in 401 "Token missing" |
| Middleware.Request.UserExtractor | utils/middleware.js:15-33 | ends as Authorize decides, and sets `request.user` only when it calls `next()` |
| Middleware.Authenticate | utils/middleware.js:5-33 | tokenExtractor then userExtractor: the outcome is Authorize's on the extracted token, the user is set exactly when `next()` is called, and a header without a usable token ends in 401 "Token missing" |
| Middleware.Contains | utils/middleware.js:55 | `includes`: true exactly when the substring occurs at some position |
| Middleware.ContainsAt | utils/middleware.js:55 | a substring found at a position is included |
| Middleware.ErrorHandler | utils/middleware.js:48-62 | the error is passed on unchanged exactly when its name is none of the four it handles (a MongoServerError counts as handled only with the duplicate-key message); every handled error gets a 4xx error response |
| Middleware.ErrorHandlerResponses | utils/middleware.js:51-59 | CastError gives 400 "malformatted id", ValidationError 400 with its own message, JsonWebTokenError 401 "token invalid" |
| Middleware.DuplicateKeyErrorResponse | utils/middleware.js:54-55 | a MongoServerError whose message contains "E11000 duplicate key error" at any position gives 400 "expected `username` to be unique" |
| Middleware.OtherMongoErrorsPassOn | utils/middleware.js:55-61 | a MongoServerError without "E11000 duplicate key error" in its message goes to `next(error)` |
| Middleware.RejectedSignatureIsTokenInvalid | utils/middleware.js:57-58 | a token that `jwt.verify` rejects with JsonWebTokenError reaches the error handler and ends in 401 "token invalid" |
| Middleware.UnknownEndpoint | utils/middleware.js:44-46 | every path gets 404 "unknown endpoint" |
| BlogsController.UpdateRecord | controllers/blogs.js:37-42 | the update record carries exactly the body's title, author, url and likes |
| BlogsController.NewBlogRecord | controllers/blogs.js:12-28 | a falsy title gives "title missing" (checked first), else a falsy url gives "url missing"; otherwise the record is the same four-field record PUT builds |
| BlogsController.OtherFieldsAreDropped | controllers/blogs.js:23-28 | fields of the body beyond the four change neither record |
| BlogsController.Merge | controllers/blogs.js:44 | an update replaces the fields it carries and keeps the stored value of the others |
| BlogsController.MergeIsIdempotent | controllers/blogs.js:44 | the same PUT applied twice leaves the same document as once |
| BlogsController.Find | controllers/blogs.js:44 | returns a stored document with the id, and none exactly when no document has it |
| BlogsController.Updated | controllers/blogs.js:44 | the same documents with the same ids; only the one with the id has the update merged in |
| BlogsController.Without | controllers/blogs.js:49 | the documents left are exactly the stored ones whose id differs |
| BlogsController.WithoutKeepsOrder | controllers/blogs.js:49 | deletion keeps the remaining documents in their stored order: it distributes over putting two lists together |
| BlogsController.WithoutAbsentId | controllers/blogs.js:48-51 | deleting an id that is not stored changes nothing |
| BlogsController.WithoutStoredId | controllers/blogs.js:49 | with unique ids, deleting a stored id removes exactly one document |
| BlogsController.WithoutIsIdempotent | controllers/blogs.js:48-51 | deleting twice is the same as deleting once |
| BlogsController.WithoutKeepsUniqueIds | controllers/blogs.js:49 | deleting keeps the ids unique |
| BlogsController.BlogStore.GetAll | controllers/blogs.js:4-7 | responds 200 with every stored blog, so the list is as long as the store |
| BlogsController.BlogStore.Create | controllers/blogs.js:9-32 | a rejected body gives 400 with the message and stores nothing; a valid one is stored under a fresh id with exactly the body's four fields, the store grows by one, and the response is 201 with the stored blog |
| BlogsController.BlogStore.Update | controllers/blogs.js:34-46 | merges the update record into the document with the id; responds 200 with the updated document or `null` |
| BlogsController.BlogStore.Delete | controllers/blogs.js:48-51 | removes the document with the id if there is one and responds 204 with no body either way |
| BlogsController.CreateGrowsTheList | tests/blogs_api.test.js:78-96 | for every valid store, after a valid POST the listed blogs are one more than before, and the POST responds 201 |

## Left out

- The database (`Blog.find`, `save`, `findByIdAndUpdate`, `findByIdAndDelete`, `User.findById`) is an in-memory class or a function parameter. Ids are naturals handed out in order, not ObjectId strings.
- The CastError that a malformed id raises inside the database calls is not produced by `BlogStore`. The error handler's answer to it is modelled.
- `jwt.verify` and the secret it uses are a function parameter. `User.findById` is a function parameter that only finds or misses; the CastError it throws on a malformed id is not modelled.
- The default of 0 for a missing `likes` belongs to the Mongoose schema in `models/blog.js`, which is not part of this model. Neither are the users controller, bcrypt and registration.
- BlogsController.Merge: that a PUT leaves absent fields unchanged is the database's treatment of `undefined` keys, which is not in the source. It is a modelling choice.
- `requestLogger` and the logger calls are output only.
- Forwarding of a rejected async middleware: the model assumes an error thrown inside `userExtractor` reaches the error handler as `next(error)`. That needs Express 5 or `express-async-errors`, neither of which is among the modelled files; under plain Express 4 the rejection would go unhandled.
- Express routing, async/await and the response serialisation are not modelled. A response is only status and body; `send` and `json` are not told apart.
- JavaScript number and key quirks are not modelled. `likes` is an unbounded integer, with no floats and no NaN from a missing `likes`. Keys that look like integers are not moved to the front by `Object.keys`. The per-author dictionary is a plain map: an author named like an inherited property ("toString", "constructor") does not start from a function value that turns the count into a string, and an author "__proto__" is stored as a key, where the source stores nothing, so that author never wins; when it is the only author, `reduce` over the empty keys throws a TypeError. Authors are always strings, never `undefined`.
- Truthiness is modelled only for optional strings (absent or ""). A body field of another JavaScript type is not modelled.
