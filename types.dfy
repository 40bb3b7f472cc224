/**
 * The entity graph of a Picasa Web Albums feed (lib/ruby_picasa/types.rb): how an
 * entity reaches the session that fetched it, link lookup and pagination, the lazy
 * fetch of an album's photos, and thumbnail lookup on a photo.
 *
 * The Ruby classes User, RecentPhotos, Album, Search and Photo all extend Base; here
 * they are one class `Entity` tagged with its `kind`. A method that a Ruby class does
 * not define (RecentPhotos undefines `albums`; only Photo has `url`) carries a
 * precondition on `kind`, so the verifier refuses the call Ruby would reject.
 */
module RubyPicasa {
  import opened Wrappers
  import opened Enumerable
  import opened ThumbnailUrl

  /** The query parameters passed along with a fetch. */
  type Options = map<string, string>

  /** An Atom link of an entry: its relation ("next", "previous", "self", ...) and target. */
  datatype AtomLink = AtomLink(rel: string, href: string)

  /** The concrete entity types. */
  datatype Kind = User | RecentPhotos | Album | Search | Photo

  /** Ruby's NoMethodError, with the name of the method the receiver (often nil) lacks. */
  datatype Failure = NoMethodError(name: string)

  /** A fetch issued through the session: `get_url(address, options)` or `album(id, options)`. */
  datatype Request = GetUrl(address: string, options: Options) | AlbumLookup(id: string, options: Options)

  /** The number of `album` lookups in a request log. */
  function AlbumLookups(rs: seq<Request>): nat
  {
    if rs == [] then 0
    else AlbumLookups(rs[..|rs| - 1]) + (if rs[|rs| - 1].AlbumLookup? then 1 else 0)
  }

  lemma AlbumLookupsAppend(rs: seq<Request>, x: Request)
    ensures AlbumLookups(rs + [x]) == AlbumLookups(rs) + (if x.AlbumLookup? then 1 else 0)
  {
    assert (rs + [x])[..|rs|] == rs;
  }

  /**
   * The Picasa client that fetched a graph. Its HTTP fetches and the parsing of their
   * responses are not modelled: they are given as two functions of the request.
   */
  class Picasa {
    /** The entity that `get_url(address, options)` parses its response into. */
    const page: (string, Options) -> Entity
    /** The `entries` of the album that `album(id, options)` returns. */
    const albumEntries: (string, Options) -> seq<Entity>

    constructor (page: (string, Options) -> Entity, albumEntries: (string, Options) -> seq<Entity>)
      ensures this.page == page && this.albumEntries == albumEntries
    {
      this.page := page;
      this.albumEntries := albumEntries;
    }
  }

  class Entity {
    const kind: Kind
    const id: string
    const title: string
    const links: seq<AtomLink>
    const content: Option<PhotoUrl>
    const thumbnails: seq<PhotoUrl>
    /** Album and Search only: the album's access rights. */
    const rights: Option<string>
    /** The enclosing entity in the feed, set by the document mapper. */
    const parent: Entity?
    /** This entity followed by its ancestors, nearest first. */
    ghost const chain: seq<Entity>

    /** `@session`: the session bound to this entity, or the one it last resolved. */
    var session: Picasa?
    var entries: seq<Entity>
    /** `@photos_requested`: whether `photos` has already tried to fetch. */
    var photosRequested: bool
    /** Every fetch this entity has issued through a session, in order. */
    ghost var requests: seq<Request>

    /** `chain` lists the parent chain, which is finite and visits no entity twice. */
    ghost predicate Rooted()
      decreases |chain|
    {
      chain != [] && chain[0] == this &&
      (parent == null ==> chain == [this]) &&
      (parent != null ==> chain == [this] + parent.chain && this !in parent.chain && parent.Rooted())
    }

    constructor (kind: Kind, id: string, title: string, links: seq<AtomLink>,
                 content: Option<PhotoUrl>, thumbnails: seq<PhotoUrl>, rights: Option<string>,
                 parent: Entity?, entries: seq<Entity>)
      requires parent != null ==> parent.Rooted()
      ensures Rooted()
      ensures this.kind == kind && this.id == id && this.title == title && this.links == links
      ensures this.content == content && this.thumbnails == thumbnails && this.rights == rights
      ensures this.parent == parent && this.entries == entries
      ensures session == null && !photosRequested && requests == []
    {
      this.kind, this.id, this.title, this.links := kind, id, title, links;
      this.content, this.thumbnails, this.rights := content, thumbnails, rights;
      this.parent, this.entries := parent, entries;
      this.chain := [this] + if parent == null then [] else parent.chain;
      session, photosRequested, requests := null, false, [];
    }

    /** The session `session` returns: the nearest one bound in the chain, or nil. */
    ghost function ResolvedSession(): Picasa?
      requires Rooted()
      reads chain
      decreases |chain|
    {
      if session != null then session
      else if parent == null then null
      else assert parent.chain == chain[1..]; parent.ResolvedSession()
    }

    /** The entities `session` walks through, nearest first: those before the first bound one. */
    ghost function Walked(): (w: seq<Entity>)
      requires Rooted()
      reads chain
      ensures session != null ==> w == []
      decreases |chain|
    {
      if session != null then []
      else [this] + if parent == null then [] else assert parent.chain == chain[1..]; parent.Walked()
    }

    /**
     * `session` resolves to the session of the first entity in the chain that has one,
     * past the walked ones (which have none); to nil when no entity in the chain has one.
     */
    lemma {:induction false} ResolvedIsNearestBound()
      requires Rooted()
      ensures Walked() <= chain
      ensures forall e :: e in Walked() ==> e.session == null
      ensures |Walked()| < |chain| ==> ResolvedSession() == chain[|Walked()|].session != null
      ensures |Walked()| == |chain| <==> ResolvedSession() == null
      decreases |chain|
    {
      if session == null && parent != null {
        parent.ResolvedIsNearestBound();
        assert Walked() == [this] + parent.Walked();
        assert chain == [this] + parent.chain;
      }
    }

    /** `session=`: binds a session directly, overriding the chain. */
    method SetSession(s: Picasa?)
      modifies this`session
      ensures session == s
    {
      session := s;
    }

    /**
     * `session`: the own session if set; otherwise the parent's, resolved recursively
     * and stored into `@session` at every walked level (nil without a parent, where
     * nothing is stored).
     */
    method Session() returns (s: Picasa?)
      requires Rooted()
      modifies (set e | e in Walked())`session
      ensures s == old(ResolvedSession())
      ensures forall e :: e in old(Walked()) ==> e.session == s
      ensures s != null ==> session == s && Walked() == []
      ensures s == null ==> Walked() == old(Walked())
      ensures ResolvedSession() == s
      decreases |chain|
    {
      if session != null {
        s := session;
      } else if parent != null {
        assert Walked() == [this] + parent.Walked();
        s := parent.Session();
        ghost var above := parent.Walked();
        session := s;
        assert parent.Walked() == above && parent.ResolvedSession() == s;
      } else {
        s := null;
      }
    }

    /** `link(rel)`: the first link whose relation is `rel`, nil when none has it. */
    function Link(rel: string): (r: Option<AtomLink>)
      ensures r.None? <==> forall i :: 0 <= i < |links| ==> links[i].rel != rel
      ensures r.Some? ==> r.value.rel == rel
      ensures r.Some? ==>
        exists i :: 0 <= i < |links| && links[i] == r.value && forall j :: 0 <= j < i ==> links[j].rel != rel
    {
      var r := Find(links, (l: AtomLink) => l.rel == rel);
      assert r.Some? ==> exists i :: IsFirstMatch(links, (l: AtomLink) => l.rel == rel, i) && links[i] == r.value;
      r
    }

    /** The links after the first one with relation `rel` do not matter. */
    lemma LinkIsFirstWithRel(rel: string, a: seq<AtomLink>, l: AtomLink, b: seq<AtomLink>)
      requires links == a + [l] + b && l.rel == rel
      requires forall i :: 0 <= i < |a| ==> a[i].rel != rel
      ensures Link(rel) == Some(l)
    {
      FindStopsAtFirst(a, l, b, (k: AtomLink) => k.rel == rel);
    }

    /** The fetch log only gains `get_url` requests, so the album lookups stay within bound. */
    ghost predicate FetchedOnce()
      reads this
    {
      AlbumLookups(requests) <= if photosRequested then 1 else 0
    }

    /** `load(options)`: re-fetches this entity at its own id. */
    method Load(options: Options) returns (r: Result<Entity, Failure>)
      requires Rooted() && FetchedOnce()
      modifies this`requests, (set e | e in Walked())`session
      ensures FetchedOnce()
      ensures forall e :: e in old(Walked()) ==> e.session == old(ResolvedSession())
      ensures old(ResolvedSession()) == null ==>
        r == Failure(NoMethodError("get_url")) && requests == old(requests)
      ensures old(ResolvedSession()) != null ==>
        r == Success(old(ResolvedSession()).page(id, options)) &&
        requests == old(requests) + [GetUrl(id, options)]
    {
      var s := Session();
      if s == null {
        r := Failure(NoMethodError("get_url"));
      } else {
        r := Success(s.page(id, options));
        AlbumLookupsAppend(requests, GetUrl(id, options));
        requests := requests + [GetUrl(id, options)];
      }
    }

    /**
     * Follows the link with relation `rel`: no fetch and nil without such a link, one
     * `get_url` of its target otherwise. The shared body of `next` and `previous`.
     */
    method Follow(rel: string) returns (r: Result<Option<Entity>, Failure>)
      requires Rooted() && FetchedOnce()
      modifies this`requests, (set e | e in Walked())`session
      ensures FetchedOnce()
      ensures Link(rel).None? ==>
        r == Success(None) && requests == old(requests) && forall e :: e in old(Walked()) ==> e.session == null
      ensures Link(rel).Some? ==> forall e :: e in old(Walked()) ==> e.session == old(ResolvedSession())
      ensures Link(rel).Some? && old(ResolvedSession()) == null ==>
        r == Failure(NoMethodError("get_url")) && requests == old(requests)
      ensures Link(rel).Some? && old(ResolvedSession()) != null ==>
        r == Success(Some(old(ResolvedSession()).page(Link(rel).value.href, map[]))) &&
        requests == old(requests) + [GetUrl(Link(rel).value.href, map[])]
    {
      var link := Link(rel);
      if link.None? {
        ResolvedIsNearestBound();
        r := Success(None);
      } else {
        var s := Session();
        if s == null {
          r := Failure(NoMethodError("get_url"));
        } else {
          r := Success(Some(s.page(link.value.href, map[])));
          AlbumLookupsAppend(requests, GetUrl(link.value.href, map[]));
          requests := requests + [GetUrl(link.value.href, map[])];
        }
      }
    }

    /** `next`: the next page of a paginated feed, nil when there is none. */
    method Next() returns (r: Result<Option<Entity>, Failure>)
      requires Rooted() && FetchedOnce()
      modifies this`requests, (set e | e in Walked())`session
      ensures FetchedOnce()
      ensures Link("next").None? ==>
        r == Success(None) && requests == old(requests) && forall e :: e in old(Walked()) ==> e.session == null
      ensures Link("next").Some? ==> forall e :: e in old(Walked()) ==> e.session == old(ResolvedSession())
      ensures Link("next").Some? && old(ResolvedSession()) == null ==>
        r == Failure(NoMethodError("get_url")) && requests == old(requests)
      ensures Link("next").Some? && old(ResolvedSession()) != null ==>
        r == Success(Some(old(ResolvedSession()).page(Link("next").value.href, map[]))) &&
        requests == old(requests) + [GetUrl(Link("next").value.href, map[])]
    {
      r := Follow("next");
    }

    /** `previous`: the previous page of a paginated feed, nil when there is none. */
    method Previous() returns (r: Result<Option<Entity>, Failure>)
      requires Rooted() && FetchedOnce()
      modifies this`requests, (set e | e in Walked())`session
      ensures FetchedOnce()
      ensures Link("previous").None? ==>
        r == Success(None) && requests == old(requests) && forall e :: e in old(Walked()) ==> e.session == null
      ensures Link("previous").Some? ==> forall e :: e in old(Walked()) ==> e.session == old(ResolvedSession())
      ensures Link("previous").Some? && old(ResolvedSession()) == null ==>
        r == Failure(NoMethodError("get_url")) && requests == old(requests)
      ensures Link("previous").Some? && old(ResolvedSession()) != null ==>
        r == Success(Some(old(ResolvedSession()).page(Link("previous").value.href, map[]))) &&
        requests == old(requests) + [GetUrl(Link("previous").value.href, map[])]
    {
      r := Follow("previous");
    }

    /** `User#albums`: the current page of albums, without a fetch. */
    function Albums(): (r: seq<Entity>)
      requires kind == User
      reads this
      ensures r == entries
    {
      entries
    }

    /** `Album#public?`: never true together with `private?`. */
    function IsPublic(): (r: bool)
      requires kind == Album || kind == Search
      ensures r ==> rights != Some("private")
    {
      rights == Some("public")
    }

    /** `Album#private?`: never true together with `public?`. */
    function IsPrivate(): (r: bool)
      requires kind == Album || kind == Search
      ensures r ==> !IsPublic()
      ensures r <==> rights == Some("private")
    {
      rights == Some("private")
    }

    /**
     * `self.session ||= parent.session`: resolve a session and, when none is found,
     * ask the parent again and store its answer; without a parent that is a call on
     * nil, which raises.
     */
    method BindSession() returns (r: Result<Picasa?, Failure>)
      requires Rooted()
      modifies (set e | e in Walked())`session
      ensures old(ResolvedSession()) == null && parent == null ==> r == Failure(NoMethodError("session"))
      ensures old(ResolvedSession()) != null || parent != null ==> r == Success(old(ResolvedSession()))
      ensures forall e :: e in old(Walked()) ==> e.session == old(ResolvedSession())
      ensures old(ResolvedSession()) != null ==> session == old(ResolvedSession())
      ensures old(ResolvedSession()) == null ==> Walked() == old(Walked())
      ensures ResolvedSession() == old(ResolvedSession())
    {
      var s := Session();
      if s != null {
        r := Success(s);
      } else if parent == null {
        r := Failure(NoMethodError("session"));
      } else {
        assert session == null;
        ghost var above := parent.Walked();
        assert Walked() == [this] + above;
        assert parent.ResolvedSession() == null;
        var p := parent.Session();
        assert p == null && parent.Walked() == above && parent.ResolvedSession() == null;
        session := p;
        assert parent.Walked() == above && parent.ResolvedSession() == null;
        assert Walked() == [this] + above;
        assert ResolvedSession() == null;
        r := Success(p);
      }
    }

    /**
     * `photos`. On RecentPhotos, an alias of `entries` (it takes no options). On Album
     * and Search, a fetch at most once: with entries present or a fetch already tried,
     * the entries as they are; otherwise mark the fetch as tried, resolve a session
     * (`self.session ||= parent.session`, which raises when there is neither a
     * session nor a parent), and when one is found replace the entries by those of
     * `album(id, options)` and return them; without a session, return nil.
     */
    method Photos(options: Options) returns (r: Result<Option<seq<Entity>>, Failure>)
      requires Rooted() && FetchedOnce()
      requires kind == RecentPhotos || kind == Album || kind == Search
      requires kind == RecentPhotos ==> options == map[]
      modifies this`entries, this`photosRequested, this`requests, (set e | e in Walked())`session
      ensures FetchedOnce()
      ensures kind == RecentPhotos || old(entries != [] || photosRequested) ==>
        r == Success(Some(old(entries))) && entries == old(entries) &&
        photosRequested == old(photosRequested) && requests == old(requests) &&
        (forall e :: e in old(Walked()) ==> e.session == null)
      ensures kind != RecentPhotos && old(entries == [] && !photosRequested) ==>
        photosRequested && forall e :: e in old(Walked()) ==> e.session == old(ResolvedSession())
      ensures kind != RecentPhotos && old(entries == [] && !photosRequested) && old(ResolvedSession()) == null ==>
        r == (if parent == null then Failure(NoMethodError("session")) else Success(None)) &&
        entries == old(entries) && requests == old(requests)
      ensures kind != RecentPhotos && old(entries == [] && !photosRequested) && old(ResolvedSession()) != null ==>
        entries == old(ResolvedSession()).albumEntries(id, options) && r == Success(Some(entries)) &&
        requests == old(requests) + [AlbumLookup(id, options)]
    {
      if kind == RecentPhotos || entries != [] || photosRequested {
        ResolvedIsNearestBound();
        r := Success(Some(entries));
        return;
      }
      ghost var above := if parent == null then [] else parent.Walked();
      ghost var aboveSession := if parent == null then null else parent.ResolvedSession();
      photosRequested := true;
      assert parent != null ==> parent.Walked() == above && parent.ResolvedSession() == aboveSession;
      assert Walked() == old(Walked());
      assert ResolvedSession() == old(ResolvedSession());
      r := FetchPhotos(options);
    }

    /**
     * The fetching branch of `photos`, once `@photos_requested` is set: bind a session
     * (`self.session ||= parent.session`, raising without session and parent), then
     * `self.entries = session.album(id, options).entries if self.session`.
     */
    method FetchPhotos(options: Options) returns (r: Result<Option<seq<Entity>>, Failure>)
      requires Rooted() && photosRequested && AlbumLookups(requests) == 0
      modifies this`entries, this`requests, (set e | e in Walked())`session
      ensures forall e :: e in old(Walked()) ==> e.session == old(ResolvedSession())
      ensures old(ResolvedSession()) == null ==>
        r == (if parent == null then Failure(NoMethodError("session")) else Success(None)) &&
        entries == old(entries) && requests == old(requests)
      ensures old(ResolvedSession()) != null ==>
        entries == old(ResolvedSession()).albumEntries(id, options) && r == Success(Some(entries)) &&
        requests == old(requests) + [AlbumLookup(id, options)] && AlbumLookups(requests) == 1
    {
      ghost var walked, resolved := Walked(), ResolvedSession();
      var bind := BindSession();
      assert forall e :: e in walked ==> e.session == resolved;
      if bind.Failure? {
        r := Failure(bind.error);
      } else if bind.value != null {
        // the getter `self.session` returns the `@session` just bound, without walking
        var fetcher := session;
        entries := fetcher.albumEntries(id, options);
        AlbumLookupsAppend(requests, AlbumLookup(id, options));
        requests := requests + [AlbumLookup(id, options)];
        r := Success(Some(entries));
      } else {
        // the getter walks the chain again, finds no session and stores nothing
        assert Walked() == walked;
        var again := Session();
        r := Success(None);
      }
    }

    /** `Photo#thumbnail(name)`: the first thumbnail whose `thumb_name` equals `name`, or nil. */
    function Thumbnail(name: Option<string>): (r: Option<PhotoUrl>)
      requires kind == Photo
      ensures r.None? <==> forall i :: 0 <= i < |thumbnails| ==> ThumbName(thumbnails[i].url) != name
      ensures r.Some? ==> ThumbName(r.value.url) == name
      ensures r.Some? ==> exists i :: 0 <= i < |thumbnails| && thumbnails[i] == r.value &&
                                      forall j :: 0 <= j < i ==> ThumbName(thumbnails[j].url) != name
    {
      var r := Find(thumbnails, (t: PhotoUrl) => ThumbName(t.url) == name);
      assert r.Some? ==> exists i :: IsFirstMatch(thumbnails, (t: PhotoUrl) => ThumbName(t.url) == name, i) && thumbnails[i] == r.value;
      r
    }

    /** The thumbnails after the first one with thumbnail name `name` do not matter. */
    lemma ThumbnailIsFirstWithName(name: Option<string>, a: seq<PhotoUrl>, t: PhotoUrl, b: seq<PhotoUrl>)
      requires kind == Photo
      requires thumbnails == a + [t] + b && ThumbName(t.url) == name
      requires forall i :: 0 <= i < |a| ==> ThumbName(a[i].url) != name
      ensures Thumbnail(name) == Some(t)
    {
      FindStopsAtFirst(a, t, b, (u: PhotoUrl) => ThumbName(u.url) == name);
    }

    /**
     * `Photo#url(name)`: with a name, the url of the thumbnail of that name (nil when
     * there is none), which then carries that name itself; without one, the url of
     * the content, and Ruby's NoMethodError on nil when the photo has no content.
     */
    function Url(name: Option<string>): (r: Result<Option<string>, Failure>)
      requires kind == Photo
      ensures name.Some? ==> r.Success? && (r.value.Some? <==> Thumbnail(name).Some?)
      ensures name.Some? && r.Success? && r.value.Some? ==>
        r.value.value == Thumbnail(name).value.url && ThumbName(r.value.value) == name
      ensures name.None? && content.Some? ==> r == Success(Some(content.value.url))
      ensures name.None? && content.None? ==> r == Failure(NoMethodError("url"))
    {
      if name.Some? then
        match Thumbnail(name)
        case Some(t) => Success(Some(t.url))
        case None => Success(None)
      else if content.Some? then Success(Some(content.value.url))
      else Failure(NoMethodError("url"))
    }
  }
}
