/** The parts of the document the extension's scripts change and that the
    model keeps: custom properties and classes on the root element, and the
    ids of the `<style>` elements appended to `<head>`. */
module Dom {

  /** The number of occurrences of `x` in `xs`. */
  function Count<T(==)>(xs: seq<T>, x: T): (r: nat)
    ensures r <= |xs|
    ensures r == 0 <==> x !in xs
  {
    if xs == [] then 0 else (if xs[0] == x then 1 else 0) + Count(xs[1..], x)
  }

  lemma {:induction false} CountAppend<T>(xs: seq<T>, ys: seq<T>, x: T)
    ensures Count(xs + ys, x) == Count(xs, x) + Count(ys, x)
  {
    if xs == [] {
      assert xs + ys == ys;
    } else {
      assert (xs + ys)[0] == xs[0];
      assert (xs + ys)[1..] == xs[1..] + ys;
      CountAppend(xs[1..], ys, x);
    }
  }

  /** The style ids after an injection guarded by `getElementById(id)`:
      the block is appended only when no element has that id yet. */
  function InjectOnce(ids: seq<string>, id: string): (r: seq<string>)
    ensures id in r
    ensures Count(r, id) == if id in ids then Count(ids, id) else 1
    ensures forall other :: other != id ==> Count(r, other) == Count(ids, other)
  {
    if id in ids then ids
    else
      CountAppend(ids, [id], id);
      assert forall other :: other != id ==> Count(ids + [id], other) == Count(ids, other) by {
        forall other | other != id ensures Count(ids + [id], other) == Count(ids, other) {
          CountAppend(ids, [id], other);
        }
      }
      ids + [id]
  }

  /** A guarded injection is idempotent, and never makes an id occur twice. */
  lemma InjectOnceIdempotent(ids: seq<string>, id: string)
    ensures InjectOnce(InjectOnce(ids, id), id) == InjectOnce(ids, id)
    ensures Count(ids, id) <= 1 ==> Count(InjectOnce(ids, id), id) == 1
  {
  }

  /** An unguarded injection appends a further copy every time. */
  lemma {:induction false} InjectAlwaysDuplicates(ids: seq<string>, id: string)
    ensures Count(ids + [id], id) == Count(ids, id) + 1
    ensures Count(ids + [id] + [id], id) == Count(ids, id) + 2
  {
    CountAppend(ids, [id], id);
    CountAppend(ids + [id], [id], id);
  }

  class Page {
    var rootVars: map<string, string>
    var rootClasses: set<string>
    var styleIds: seq<string>

    constructor()
      ensures rootVars == map[] && rootClasses == {} && styleIds == []
    {
      rootVars := map[];
      rootClasses := {};
      styleIds := [];
    }

    /** `document.documentElement.style.setProperty(name, value)`. */
    method SetRootVar(name: string, value: string)
      modifies this
      ensures rootVars == old(rootVars)[name := value]
      ensures rootClasses == old(rootClasses) && styleIds == old(styleIds)
    {
      rootVars := rootVars[name := value];
    }

    /** `classList.toggle(c, on)` on the root element. */
    method ToggleRootClass(c: string, on: bool)
      modifies this
      ensures rootClasses == if on then old(rootClasses) + {c} else old(rootClasses) - {c}
      ensures rootVars == old(rootVars) && styleIds == old(styleIds)
    {
      if on {
        rootClasses := rootClasses + {c};
      } else {
        rootClasses := rootClasses - {c};
      }
    }

    /** Appends a `<style>` element unless one with this id exists. */
    method InjectStyleOnce(id: string)
      modifies this
      ensures styleIds == InjectOnce(old(styleIds), id)
      ensures rootVars == old(rootVars) && rootClasses == old(rootClasses)
    {
      if id !in styleIds {
        styleIds := styleIds + [id];
      }
    }

    /** Appends a `<style>` element without looking for an existing one. */
    method InjectStyle(id: string)
      modifies this
      ensures styleIds == old(styleIds) + [id]
      ensures rootVars == old(rootVars) && rootClasses == old(rootClasses)
    {
      styleIds := styleIds + [id];
    }
  }
}
