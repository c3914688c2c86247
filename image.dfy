/** `CachedImage`: an image whose bytes are kept, base64-encoded, in the
    device's key-value store under the image URL, so that each image is
    downloaded once. On Android the store is bypassed and the URL is loaded
    directly. */
module Image {
  import opened MealDb

  /** `Platform.OS`; every OS other than Android takes the caching path. */
  datatype Platform = Android | Ios

  /** What the I/O steps of one lookup do: whether `getItem` resolves, what
      `fetch` followed by the base64 encoding yields (None when either
      throws), and whether `setItem` resolves. */
  datatype Effects = Effects(readOk: bool, fetched: Option<string>, writeOk: bool)

  /** The image source shown once the lookup is over, and the store after it. */
  datatype Lookup = Lookup(source: string, store: map<string, string>)

  /** `getItem(uri)` yields a truthy value: stored and not empty. */
  predicate IsHit(store: map<string, string>, uri: string)
  {
    uri in store && store[uri] != ""
  }

  /** The lookup reaches `setItem` and it succeeds. */
  predicate Stores(store: map<string, string>, uri: string, fx: Effects)
  {
    fx.readOk && !IsHit(store, uri) && fx.fetched.Some? && fx.writeOk
  }

  /** The outcome of showing `uri` against the store `store`. */
  function Resolve(platform: Platform, store: map<string, string>, uri: string, fx: Effects): (r: Lookup)
    // Android: the raw URL, and the store is neither read nor written.
    ensures platform == Android ==> r == Lookup(uri, store)
    // A hit shows the stored data and leaves the store alone.
    ensures platform == Ios && fx.readOk && IsHit(store, uri) ==> r == Lookup(store[uri], store)
    // A miss that fetches and stores shows what it stored.
    ensures platform == Ios && Stores(store, uri, fx) ==>
      r.source == fx.fetched.value && r.store == store[uri := fx.fetched.value]
    // Any failure falls back to the raw URL and writes nothing.
    ensures platform == Ios && !fx.readOk ==> r == Lookup(uri, store)
    ensures platform == Ios && fx.readOk && !IsHit(store, uri) && !Stores(store, uri, fx) ==> r == Lookup(uri, store)
    // What is shown is the raw URL or what the store now holds for it.
    ensures r.source == uri || (uri in r.store && r.source == r.store[uri])
    // No key other than `uri` is added, removed or changed.
    ensures r.store.Keys == store.Keys + (if r.store == store then {} else {uri})
    ensures forall k :: k in store && k != uri ==> r.store[k] == store[k]
  {
    if platform == Android || !fx.readOk then Lookup(uri, store)
    else if IsHit(store, uri) then Lookup(store[uri], store)
    else if fx.fetched.None? || !fx.writeOk then Lookup(uri, store)
    else Lookup(fx.fetched.value, store[uri := fx.fetched.value])
  }

  /** Caching is idempotent: once a lookup has shown stored data, looking
      the same URL up again (with a readable store) shows the same data and
      changes nothing, whatever the network would do. */
  lemma LookupAgainIsHit(platform: Platform, store: map<string, string>, uri: string, fx1: Effects, fx2: Effects)
    requires fx1.readOk && fx2.readOk
    requires platform == Ios && (IsHit(store, uri) || (Stores(store, uri, fx1) && fx1.fetched.value != ""))
    ensures var first := Resolve(platform, store, uri, fx1);
      IsHit(first.store, uri) && Resolve(platform, first.store, uri, fx2) == first
  {
  }

  /** Stored data that is empty is falsy, so the next lookup misses again
      and shows what it would have shown on the original store. */
  lemma EmptyDataIsRefetched(store: map<string, string>, uri: string, fx1: Effects, fx2: Effects)
    requires Stores(store, uri, fx1) && fx1.fetched.value == ""
    ensures var first := Resolve(Ios, store, uri, fx1);
      !IsHit(first.store, uri) && Resolve(Ios, first.store, uri, fx2).source == Resolve(Ios, store, uri, fx2).source
  {
  }

  /** The device's key-value store (AsyncStorage). */
  class KeyValueStore {
    var items: map<string, string>
  }

  /** A mounted `CachedImage` component. */
  class CachedImage {
    const uri: string
    const platform: Platform
    /** The `source` the rendered image gets; None is null. */
    var source: Option<string>

    /** On Android the URL is shown at once; elsewhere nothing is shown
        until the lookup is over. */
    constructor (uri: string, platform: Platform)
      ensures this.uri == uri && this.platform == platform
      ensures source == (if platform == Android then Some(uri) else None)
    {
      this.uri := uri;
      this.platform := platform;
      source := if platform == Android then Some(uri) else None;
    }

    /** The effect `getCachedImage`, run to completion: read the store,
        fetch and store on a miss, fall back to the URL on an error. On
        Android no effect runs and nothing changes. */
    method Settle(storage: KeyValueStore, fx: Effects)
      requires platform == Android ==> source == Some(uri)
      modifies this, storage
      ensures var r := Resolve(platform, old(storage.items), uri, fx);
        source == Some(r.source) && storage.items == r.store
    {
      if platform == Android {
        return;
      }
      if !fx.readOk {
        source := Some(uri);
        return;
      }
      var cached := if uri in storage.items then storage.items[uri] else "";
      if cached != "" {
        source := Some(cached);
      } else if fx.fetched.None? {
        source := Some(uri);
      } else if !fx.writeOk {
        source := Some(uri);
      } else {
        var data := fx.fetched.value;
        storage.items := storage.items[uri := data];
        source := Some(data);
      }
    }
  }

  /** Two images of the same URL mounted one after the other: the second
      one is served from the store once the first has stored the data. */
  method ShowTwice(storage: KeyValueStore, uri: string, fx1: Effects, fx2: Effects)
    returns (first: Option<string>, second: Option<string>)
    requires Stores(storage.items, uri, fx1) && fx1.fetched.value != ""
    requires fx2.readOk
    modifies storage
    ensures first == second == fx1.fetched
    ensures storage.items == old(storage.items)[uri := fx1.fetched.value]
  {
    var a := new CachedImage(uri, Ios);
    a.Settle(storage, fx1);
    var b := new CachedImage(uri, Ios);
    b.Settle(storage, fx2);
    first, second := a.source, b.source;
  }
}
