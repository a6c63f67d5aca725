/** The part of the page the content scripts read and write: the host
    name, the live location, and the video renderer elements in document
    order. An element is referred to by its position in `renderers`. */
module Dom {
  import opened Seqs

  /** The class the change detectors put on a renderer they reported. */
  const DetectedClass: string := "detected-video"

  /** The class the content script uses to hide a video. */
  const BlockedClass: string := "blocked"

  /** The link a renderer's anchor selector finds: its resolved `href`
      (empty when the element has none), its `title` attribute, and the
      text of its `span#video-title` child when there is one. */
  datatype Anchor = Anchor(href: string, titleAttribute: Option<string>, spanText: Option<string>)

  /** The tag names the queries select by: `ytd-compact-video-renderer`,
      `ytd-rich-item-renderer`, `ytd-video-renderer`, and any other. */
  datatype Tag = CompactVideoRenderer | RichItemRenderer | VideoRenderer | OtherTag

  /** An element: its tag name, the anchor that the selector paired
      with that tag finds inside it, and its class list. */
  datatype Renderer = Renderer(tag: Tag, anchor: Option<Anchor>, classes: set<string>)

  /** `classList.add(c)` */
  function AddClass(r: Renderer, c: string): (r': Renderer)
    ensures r'.classes == r.classes + {c}
    ensures r'.tag == r.tag && r'.anchor == r.anchor
  {
    r.(classes := r.classes + {c})
  }

  /** `classList.remove(c)` */
  function RemoveClass(r: Renderer, c: string): (r': Renderer)
    ensures r'.classes == r.classes - {c}
    ensures r'.tag == r.tag && r'.anchor == r.anchor
  {
    r.(classes := r.classes - {c})
  }

  /** The element list after `classList.add(c)` on the elements at the
      positions in `at`. */
  function AddClassAt(rs: seq<Renderer>, at: set<nat>, c: string): (rs': seq<Renderer>)
    ensures |rs'| == |rs|
    ensures forall j :: 0 <= j < |rs| ==> rs'[j] == if j in at then AddClass(rs[j], c) else rs[j]
  {
    seq(|rs|, j requires 0 <= j < |rs| => if j in at then AddClass(rs[j], c) else rs[j])
  }

  /** Adding the class at one more position: the element there is
      still the original one, and adding the class to it (or finding it
      already there) extends the set of marked positions. */
  lemma AddClassAtStep(rs: seq<Renderer>, at: set<nat>, c: string, j: nat)
    requires j < |rs| && j !in at
    ensures AddClassAt(rs, at, c)[j] == rs[j]
    ensures AddClassAt(rs, at, c)[j := AddClass(rs[j], c)] == AddClassAt(rs, at + {j}, c)
    ensures c in rs[j].classes ==> AddClassAt(rs, at, c) == AddClassAt(rs, at + {j}, c)
  {
    var before, after := AddClassAt(rs, at, c), AddClassAt(rs, at + {j}, c);
    assert before[j := AddClass(rs[j], c)] == after;
    if c in rs[j].classes {
      assert AddClass(rs[j], c) == rs[j];
      assert before == after;
    }
  }

  /** Adding the class at one more position of an already updated list,
      whether or not that position was in `at`: `classList.add` of a
      class already present changes nothing. */
  lemma AddClassAtGrow(rs: seq<Renderer>, at: set<nat>, c: string, j: nat)
    requires j < |rs|
    ensures AddClassAt(rs, at, c)[j := AddClass(AddClassAt(rs, at, c)[j], c)] == AddClassAt(rs, at + {j}, c)
  {
    var before, after := AddClassAt(rs, at, c), AddClassAt(rs, at + {j}, c);
    assert before[j := AddClass(before[j], c)] == after;
  }

  /** The element list after `classList.remove(c)` on the elements at
      the positions in `at`. */
  function RemoveClassAt(rs: seq<Renderer>, at: set<nat>, c: string): (rs': seq<Renderer>)
    ensures |rs'| == |rs|
    ensures forall j :: 0 <= j < |rs| ==> rs'[j] == if j in at then RemoveClass(rs[j], c) else rs[j]
  {
    seq(|rs|, j requires 0 <= j < |rs| => if j in at then RemoveClass(rs[j], c) else rs[j])
  }

  /** Removing the class at one more position of an already updated
      list; `classList.remove` of an absent class changes nothing. */
  lemma RemoveClassAtGrow(rs: seq<Renderer>, at: set<nat>, c: string, j: nat)
    requires j < |rs|
    ensures RemoveClassAt(rs, at, c)[j := RemoveClass(RemoveClassAt(rs, at, c)[j], c)] == RemoveClassAt(rs, at + {j}, c)
  {
    var before, after := RemoveClassAt(rs, at, c), RemoveClassAt(rs, at + {j}, c);
    assert RemoveClass(before[j], c) == RemoveClass(rs[j], c) by {
      assert before[j].classes - {c} == rs[j].classes - {c};
    }
    assert before[j := RemoveClass(before[j], c)] == after;
  }

  /** The element list after `classList.remove(c)` on every element. */
  function RemoveClassEverywhere(rs: seq<Renderer>, c: string): (rs': seq<Renderer>)
    ensures |rs'| == |rs|
    ensures forall j :: 0 <= j < |rs| ==> rs'[j] == RemoveClass(rs[j], c)
  {
    seq(|rs|, j requires 0 <= j < |rs| => RemoveClass(rs[j], c))
  }

  /** Two element lists that differ at most in class lists: everything
      a video query reads is the same in both. */
  predicate SameStructure(a: seq<Renderer>, b: seq<Renderer>)
  {
    |a| == |b| && forall j :: 0 <= j < |a| ==> a[j].tag == b[j].tag && a[j].anchor == b[j].anchor
  }

  /** The window and document as the content scripts see them. */
  class Page {
    var hostname: string
    var href: string
    var renderers: seq<Renderer>

    constructor (hostname: string, href: string, renderers: seq<Renderer>)
      ensures this.hostname == hostname && this.href == href && this.renderers == renderers
    {
      this.hostname := hostname;
      this.href := href;
      this.renderers := renderers;
    }

    /** A client-side navigation (`history.pushState`): the location
        changes, the host and the elements stay. */
    method Navigate(newHref: string)
      modifies this
      ensures href == newHref
      ensures hostname == old(hostname) && renderers == old(renderers)
    {
      href := newHref;
    }
  }
}
