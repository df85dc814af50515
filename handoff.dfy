/**
 * How an article travels from a listing page to the article page: the card
 * registers the article under a key derived from its id, a click copies it
 * into the session slot `currentArticle`, and the article page takes it out
 * of the slot once, falling back to the `data` URL parameter.
 */
module Handoff {
  import opened Optional
  import opened JsString

  /** The fields a listing stores for an article. */
  datatype ArticleData = ArticleData(
    id: string,
    title: string,
    author: string,
    timeAgo: string,
    category: string,
    image: string,
    excerpt: string,
    body: string,
    url: string)

  /** A stored JSON text: one that parses to an article, or one that does not parse. */
  datatype Stored = Json(article: ArticleData) | Garbled

  const KeyPrefix := "article_"

  /** `` `article_${id.replace(/\//g, '_')}` ``. */
  function ArticleKey(id: string): (k: string)
    ensures |k| == |KeyPrefix| + |id| && StartsWith(k, KeyPrefix)
    ensures forall i :: 0 <= i < |id| ==> k[|KeyPrefix| + i] == if id[i] == '/' then '_' else id[i]
    ensures '/' !in k[|KeyPrefix|..]
  {
    KeyPrefix + ReplaceAll(id, '/', '_')
  }

  /** Ids with no underscore get distinct keys. */
  lemma ArticleKeyInjective(a: string, b: string)
    requires '_' !in a && '_' !in b
    requires ArticleKey(a) == ArticleKey(b)
    ensures a == b
  {
    var n := |KeyPrefix|;
    forall i | 0 <= i < |a| ensures a[i] == b[i] {
      assert ArticleKey(a)[n + i] == ArticleKey(b)[n + i];
      assert a[i] != '_' && b[i] != '_';
    }
  }

  /** An id with a slash and the same id with an underscore in its place share a key. */
  lemma ArticleKeyCollides(prefix: string, suffix: string)
    ensures ArticleKey(prefix + "/" + suffix) == ArticleKey(prefix + "_" + suffix)
  {
    var a := prefix + "/" + suffix;
    var b := prefix + "_" + suffix;
    assert forall i :: 0 <= i < |a| ==> (a[i] == '/' ==> b[i] == '_' || b[i] == '/');
    assert forall i :: 0 <= i < |a| && i != |prefix| ==> a[i] == b[i];
    assert ReplaceAll(a, '/', '_') == ReplaceAll(b, '/', '_');
  }

  /** What `getArticleFromURL` reads from one slot state and URL parameter, and the slot state it leaves. */
  function Take(slot: Option<Stored>, urlData: Option<Stored>): (r: (Option<ArticleData>, Option<Stored>))
    ensures slot.Some? && slot.value.Json? ==> r == (Some(slot.value.article), None)
    ensures !(slot.Some? && slot.value.Json?) ==>
              r.1 == slot && r.0 == if urlData.Some? && urlData.value.Json? then Some(urlData.value.article) else None
  {
    match slot
    case Some(Json(a)) => (Some(a), None)
    case _ =>
      match urlData
      case Some(Json(a)) => (Some(a), slot)
      case _ => (None, slot)
  }

  /** After the stored article is taken, the next read falls back to the URL parameter. */
  lemma TakeConsumesOnce(a: ArticleData, urlData: Option<Stored>)
    ensures var (first, after) := Take(Some(Json(a)), urlData);
            && first == Some(a)
            && Take(after, urlData).0 == Take(None, urlData).0
  {
  }

  /** The page's article registry (`window[key]`), its session slot and whether it has left for the article page. */
  class Browser {
    var registry: map<string, ArticleData>
    var slot: Option<Stored>
    var navigated: bool

    constructor ()
      ensures registry == map[] && slot == None && !navigated
    {
      registry, slot, navigated := map[], None, false;
    }

    /** A card is rendered: its article is kept under its key. */
    method Register(article: ArticleData) returns (key: string)
      modifies this
      ensures key == ArticleKey(article.id)
      ensures registry == old(registry)[key := article]
      ensures slot == old(slot) && navigated == old(navigated)
    {
      key := ArticleKey(article.id);
      registry := registry[key := article];
    }

    /** `navigateToArticle(key)`: leaves only when the key holds an article, after storing it in the slot. */
    method Navigate(key: string)
      modifies this
      ensures key in old(registry) ==> slot == Some(Json(old(registry)[key])) && navigated
      ensures key !in old(registry) ==> unchanged(this)
      ensures registry == old(registry)
    {
      if key in registry {
        slot := Some(Json(registry[key]));
        navigated := true;
      }
    }

    /**
     * `getArticleFromURL`: an article in the slot is removed and returned; a
     * slot that does not parse is left in place; otherwise the URL
     * parameter is used, and `None` stands for `null`.
     */
    method TakeArticle(urlData: Option<Stored>) returns (article: Option<ArticleData>)
      modifies this
      ensures (article, slot) == Take(old(slot), urlData)
      ensures registry == old(registry) && navigated == old(navigated)
    {
      if slot.Some? && slot.value.Json? {
        article := Some(slot.value.article);
        slot := None;
        return;
      }
      if urlData.Some? && urlData.value.Json? {
        return Some(urlData.value.article);
      }
      return None;
    }
  }
}
