# ruby-picasa entity types, modelled in Dafny

The Ruby library ruby-picasa parses Picasa Web Albums feeds into a graph of entities:
users, recent-photo feeds, albums, searches and photos. This project models the
behaviour of those entity classes (`lib/ruby_picasa/types.rb`) and proves what they promise.

- **Thumbnail names** (`ThumbnailUrl#thumb_name`). The module `ThumbnailUrl` holds
  this part. A thumbnail url yields the size token between its last two slashes.
  The model follows the regular expression `/([^/]+)/[^/]+$` as Ruby runs it. The
  leftmost match wins. `[^/]` also matches a line break. `$` matches at the end of
  the string and also just before any `'\n'`. For urls without a line break, the
  result is proved to be exactly the penultimate path segment.
- **First-match lookups** (`link`, `thumbnail`, `url`). These are built on
  `Enumerable.Find`, a model of Ruby's `Enumerable#find`.
- **Session resolution** (`session`, `session=`). `Entity.session` is `@session`.
  The getter walks up the `parent` chain to the nearest entity with a bound session.
  On the way back it stores the result into `@session` of every entity it passed.
  The ghost functions `ResolvedSession` and `Walked` say what the walk finds and
  which entities it passes.
- **Fetches** (`load`, `next`, `previous`, `photos`). Each fetch goes through the
  session's `get_url` or `album`, and each is logged in the ghost field `requests`.
  `photos` on an album or a search fetches at most once per instance. The
  predicate `FetchedOnce` bounds the album lookups in the log by
  `@photos_requested`. The constructor sets it up, and every state-changing method
  keeps it. So across any sequence of calls there is at most one `album` lookup
  per instance.

The five Ruby classes are one Dafny class, `RubyPicasa.Entity`, tagged with its
`kind`. A method that a Ruby class lacks carries a precondition on `kind`. That
covers `albums`, which RecentPhotos undefines, and `photos`, `public?`/`private?`
and `url`/`thumbnail`, which only some classes define. Ruby's nil is `None` or
`null`. An exception Ruby would raise is a `Failure(NoMethodError(name))` result,
naming the method that was called on nil.

Where the documented intent and the code differ, the model follows the code:
- `thumb_name` of `http://host/photo.jpg` is `"host"`: the host name counts as a
  segment (`ThumbNameOfHost`).
- When no entity in the chain has a session but a parent exists, `photos` returns
  nil, not an empty sequence. Without a parent it raises NoMethodError from
  `parent.session`, after `@photos_requested` is already set.
- `url` with no name on a photo without content raises NoMethodError from
  `content.url` on nil, rather than returning nil.

## Model

| member | source | states |
|---|---|---|
| Enumerable.Find | lib/ruby_picasa/types.rb:45 | `find` is nil exactly when no element satisfies the block. Otherwise it returns an element that satisfies it, and no element before that one does. |
| Enumerable.FindStopsAtFirst | lib/ruby_picasa/types.rb:45 | Whatever follows the first satisfying element does not change what `find` returns. |
| ThumbnailUrl.FirstMatch | lib/ruby_picasa/types.rb:17 | The capture of the leftmost match at or after a position is non-empty, contains no '/', and occurs in the url. |
| ThumbnailUrl.ThumbName | lib/ruby_picasa/types.rb:16-18 | A non-nil thumbnail name is non-empty, contains no '/', and is a contiguous piece of the url. |
| ThumbnailUrl.FirstMatchFound | lib/ruby_picasa/types.rb:17 | A non-nil scan result is the capture of a match at some position, and no match starts earlier. |
| ThumbnailUrl.FirstMatchSkips | lib/ruby_picasa/types.rb:17 | Positions where no match starts do not change the scan's answer. |
| ThumbnailUrl.MatchAtWithoutNewline | lib/ruby_picasa/types.rb:17 | Without a line break, a match at a '/' means a non-empty segment, a '/', and a non-empty last segment that reaches the end of the url. |
| ThumbnailUrl.FirstMatchAtLastSegments | lib/ruby_picasa/types.rb:17 | Without a line break, the '/' that opens the last two segments holds the leftmost match. |
| ThumbnailUrl.ThumbNameOfPathEnd | lib/ruby_picasa/types.rb:16-18 | A url without line break that ends in "/s/t", with `s` and `t` non-empty and free of '/', has thumbnail name `s`. |
| ThumbnailUrl.MatchSplits | lib/ruby_picasa/types.rb:17 | Without a line break, a match cuts the url into prefix, "/", capture, "/", last segment. |
| ThumbnailUrl.ThumbNameSplits | lib/ruby_picasa/types.rb:16-18 | Without a line break, a non-nil thumbnail name is the penultimate segment of the url. |
| ThumbnailUrl.ThumbNameIsPenultimateSegment | lib/ruby_picasa/types.rb:16-18 | For a url without line break, `thumb_name` is `s` if and only if the url ends in "/s/t" with `s` and `t` non-empty and free of '/'. |
| ThumbnailUrl.NoMatchNoName | lib/ruby_picasa/types.rb:17 | A url where no position starts a match has a nil thumbnail name. |
| ThumbnailUrl.ThumbNameTrailingSlash | lib/ruby_picasa/types.rb:17 | A url without a line break that ends in '/' has a nil thumbnail name. |
| ThumbnailUrl.ThumbNameSingleSlash | lib/ruby_picasa/types.rb:17 | A url with at most one '/' has a nil thumbnail name. |
| ThumbnailUrl.ThumbNameEmptySegment | lib/ruby_picasa/types.rb:17 | Without a line break, an empty penultimate segment ("//t") gives a nil thumbnail name. |
| ThumbnailUrl.ThumbNameExample | lib/ruby_picasa/types.rb:15-18 | `http://lh3.ggpht.com/album123/160c/photo.jpg` has thumbnail name "160c". |
| ThumbnailUrl.ThumbNameOfHost | lib/ruby_picasa/types.rb:17 | `http://host/photo.jpg` has thumbnail name "host": the host counts as a segment. |
| ThumbnailUrl.ThumbNameLineBreak | lib/ruby_picasa/types.rb:17 | `$` also matches before a line break, so `/a/b\n/c/d` has thumbnail name "a". |
| RubyPicasa.Entity.ResolvedIsNearestBound | lib/ruby_picasa/types.rb:53-59 | The getter passes a prefix of the parent chain in which no entity has a session. It then resolves to the session of the first entity past that prefix. It resolves to nil exactly when no entity in the chain has a session. |
| RubyPicasa.Entity.SetSession | lib/ruby_picasa/types.rb:48-50 | `session=` binds `@session` and may change nothing else. |
| RubyPicasa.Entity.Session | lib/ruby_picasa/types.rb:53-59 | `session` returns the nearest bound session, or nil. It stores that value into `@session` of every entity it passed, and changes no other state. After a non-nil result the own session is set, so a later call walks nothing. After a nil result the state is as before. |
| RubyPicasa.Entity.Link | lib/ruby_picasa/types.rb:44-46 | `link(rel)` is nil exactly when no link has relation `rel`. Otherwise it is the first link with that relation. |
| RubyPicasa.Entity.LinkIsFirstWithRel | lib/ruby_picasa/types.rb:44-46 | Links after the first one with relation `rel` do not affect `link(rel)`. |
| RubyPicasa.Entity.Load | lib/ruby_picasa/types.rb:62-64 | `load` issues exactly one `get_url(id, options)` and returns its result. Without a session it raises NoMethodError and issues nothing. It keeps the fetch-once invariant. |
| RubyPicasa.Entity.Follow | lib/ruby_picasa/types.rb:67-78 | Following a relation with no link is nil, with no fetch and no change of session. Otherwise it issues exactly one `get_url` of the link's href and returns its result, or raises without a session. |
| RubyPicasa.Entity.Next | lib/ruby_picasa/types.rb:67-71 | `next` returns nil with no fetch when there is no "next" link. Otherwise it stores the resolved session along the walked chain, issues one `get_url` of that link's href and returns what it yields, or raises without a session. |
| RubyPicasa.Entity.Previous | lib/ruby_picasa/types.rb:74-78 | `previous` returns nil with no fetch when there is no "previous" link. Otherwise it stores the resolved session along the walked chain, issues one `get_url` of that link's href and returns what it yields, or raises without a session. |
| RubyPicasa.Entity.Albums | lib/ruby_picasa/types.rb:97-99 | `User#albums` is the current page of entries, without a fetch. It exists only on User, not on RecentPhotos (line 114). |
| RubyPicasa.Entity.IsPublic | lib/ruby_picasa/types.rb:147-149 | A public album is never private. |
| RubyPicasa.Entity.IsPrivate | lib/ruby_picasa/types.rb:152-154 | `private?` holds exactly when the rights are "private", and then `public?` does not hold. |
| RubyPicasa.Entity.BindSession | lib/ruby_picasa/types.rb:160 | Or-assigning the parent's session raises when there is no session and no parent. Otherwise it yields the resolved session and stores it along the walked chain. The resolution is unchanged afterwards. |
| RubyPicasa.Entity.Photos | lib/ruby_picasa/types.rb:157-165 | With entries present, a fetch already tried, or on RecentPhotos (lines 110-112), `photos` returns the entries and changes nothing. Otherwise it sets `@photos_requested` and resolves a session. When one is found, the entries become those of `album(id, options)`, with exactly one album lookup. Without a session it returns nil, or raises without a parent, and leaves entries alone. Search inherits it unchanged (lines 171-173). At most one album lookup ever happens. |
| RubyPicasa.Entity.FetchPhotos | lib/ruby_picasa/types.rb:159-161 | After the flag is set: the session binding, then one album lookup when a session is found. Otherwise nil, or raise without a parent, with entries unchanged. |
| RubyPicasa.Entity.Thumbnail | lib/ruby_picasa/types.rb:227-229 | `thumbnail(name)` is nil exactly when no thumbnail has that thumbnail name. Otherwise it is the first thumbnail that has it. |
| RubyPicasa.Entity.ThumbnailIsFirstWithName | lib/ruby_picasa/types.rb:227-229 | Thumbnails after the first one with the given thumbnail name do not affect `thumbnail(name)`. |
| RubyPicasa.Entity.Url | lib/ruby_picasa/types.rb:216-224 | With a name, `url(name)` is the url of `thumbnail(name)`, and that url has that thumbnail name itself; it is nil when there is no such thumbnail. Without a name it is `content.url`, which raises NoMethodError when there is no content. |

## Left out

- The `Objectify` declarations (`attributes`, `attribute`, `has_many`, `has_one`, `namespaces`, `flatten`) are parser configuration. Here their fields are plain constants and fields of `Entity`, filled in by its constructor.
- The session's `get_url` and `album` are an HTTP client and a feed parser, and `lib/ruby_picasa.rb` is not part of this model. They are the function fields `Picasa.page` and `Picasa.albumEntries`. Each call is recorded in the ghost log `requests`. `next` and `previous` pass no options, so the `get_url` they issue has empty options; this assumes `get_url` defaults them to `{}`.
- Timestamps, `author`, and the scalar attributes without logic (`numphotos`, `width`, `height`, `keywords` and the like) are left out. `PhotoUrl` keeps only its `url`.
- The model has no Ruby regex engine. `thumb_name` is specified by an explicit scan over string positions.
- `blank?` on a nil `entries` is not modelled. `entries` is always a sequence, and blank means empty.
- A nil url on a thumbnail is not modelled. A nil url would raise in `thumb_name`.
- The parent chain is assumed finite and free of cycles (`Rooted`), as the document mapper builds it.
- The entity that `Picasa.page` returns for a fetched page is opaque: nothing says its parent chain is acyclic or its fetch log starts empty, so the model cannot go on to call `next`, `load` or `photos` on a fetched page.
- There is no concurrency in the code, so none is modelled.
