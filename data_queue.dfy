/**
 * A model of SystemAbstractions::DataQueue: a FIFO of byte buffers that hands
 * out bytes from the front without copying a buffer until it has to.
 *
 * The queue holds a sequence of elements, each a buffer and the number of its
 * leading bytes already handed out. What the queue holds, abstractly, is the
 * concatenation of every element's unconsumed suffix (Bytes); every operation
 * is specified against that sequence, and removal also against DropFront, the
 * element-by-element state the general byte-copy path leaves behind.
 */
module DataQueues {
  import opened Types

  type Buffer = seq<Byte>

  /** One buffer held in the queue and how many of its bytes are already consumed. */
  datatype Element = Element(data: Buffer, consumed: nat)

  /** Every element has consumed no more than it holds. */
  ghost predicate WellFormed(es: seq<Element>)
  {
    forall j :: 0 <= j < |es| ==> es[j].consumed <= |es[j].data|
  }

  /** The bytes of `e` not yet handed out. */
  ghost function Unconsumed(e: Element): Buffer
    requires e.consumed <= |e.data|
  {
    e.data[e.consumed..]
  }

  /** The abstract content of the queue, front to back. */
  ghost function Bytes(es: seq<Element>): (b: Buffer)
    requires WellFormed(es)
    ensures |b| == Remaining(es)
  {
    if es == [] then [] else Unconsumed(es[0]) + Bytes(es[1..])
  }

  /** The sum over the elements of `data.size() - consumed`, which `totalBytes` tracks. */
  ghost function Remaining(es: seq<Element>): nat
    requires WellFormed(es)
  {
    if es == [] then 0 else |es[0].data| - es[0].consumed + Remaining(es[1..])
  }

  /**
   * The elements left after the general byte-copy path removes `k` bytes:
   * each front element consumed in full is erased (an empty one included,
   * as long as bytes are still wanted), and the element the request ends
   * inside has its consumed offset advanced.
   */
  ghost function DropFront(es: seq<Element>, k: nat): (r: seq<Element>)
    requires WellFormed(es) && k <= Remaining(es)
    ensures WellFormed(r) && Remaining(r) == Remaining(es) - k
    decreases |es|
  {
    if k == 0 then es
    else if k >= |es[0].data| - es[0].consumed then DropFront(es[1..], k - (|es[0].data| - es[0].consumed))
    else [Element(es[0].data, es[0].consumed + k)] + es[1..]
  }

  /** Appending an element appends its unconsumed bytes to the content. */
  lemma {:induction false} BytesAppend(es: seq<Element>, e: Element)
    requires WellFormed(es) && e.consumed <= |e.data|
    ensures WellFormed(es + [e])
    ensures Bytes(es + [e]) == Bytes(es) + Unconsumed(e)
    ensures Remaining(es + [e]) == Remaining(es) + |e.data| - e.consumed
    decreases |es|
  {
    var es' := es + [e];
    if es == [] {
      assert es' == [e] && es'[1..] == [];
    } else {
      assert es'[0] == es[0] && es'[1..] == es[1..] + [e];
      assert WellFormed(es[1..]);
      BytesAppend(es[1..], e);
      assert Bytes(es') == Unconsumed(es[0]) + (Bytes(es[1..]) + Unconsumed(e));
    }
  }

  /** Removing at least the front element's bytes drops that element and removes the rest from the tail. */
  lemma DropPastFront(es: seq<Element>, k: nat)
    requires WellFormed(es) && es != [] && |es[0].data| - es[0].consumed <= k <= Remaining(es) && k > 0
    ensures WellFormed(es[1..]) && k - (|es[0].data| - es[0].consumed) <= Remaining(es[1..])
    ensures DropFront(es, k) == DropFront(es[1..], k - (|es[0].data| - es[0].consumed))
  {
  }

  /** The content past the front element's bytes is the content of the other elements. */
  lemma BytesPastFront(es: seq<Element>, k: nat)
    requires WellFormed(es) && es != [] && |es[0].data| - es[0].consumed <= k <= Remaining(es)
    ensures WellFormed(es[1..])
    ensures Bytes(es)[k..] == Bytes(es[1..])[k - (|es[0].data| - es[0].consumed)..]
  {
    assert Bytes(es) == Unconsumed(es[0]) + Bytes(es[1..]);
  }

  /** Removing fewer than the front element's bytes advances its consumed offset. */
  lemma DropInsideFront(es: seq<Element>, k: nat)
    requires WellFormed(es) && es != [] && 0 < k < |es[0].data| - es[0].consumed
    ensures DropFront(es, k) == [Element(es[0].data, es[0].consumed + k)] + es[1..]
    ensures Bytes(DropFront(es, k)) == Bytes(es)[k..]
  {
    var e' := Element(es[0].data, es[0].consumed + k);
    var es' := [e'] + es[1..];
    assert es'[0] == e' && es'[1..] == es[1..];
    assert Bytes(es) == Unconsumed(es[0]) + Bytes(es[1..]);
    assert Unconsumed(e') == Unconsumed(es[0])[k..];
  }

  /**
   * Removing `k` bytes leaves exactly the content after the first `k` bytes,
   * wherever the element boundaries fall.
   */
  lemma {:induction false} DropFrontBytes(es: seq<Element>, k: nat)
    requires WellFormed(es) && k <= Remaining(es)
    ensures Bytes(DropFront(es, k)) == Bytes(es)[k..]
    decreases |es|
  {
    if k > 0 {
      var r := |es[0].data| - es[0].consumed;
      if k >= r {
        DropPastFront(es, k);
        BytesPastFront(es, k);
        DropFrontBytes(es[1..], k - r);
      } else {
        DropInsideFront(es, k);
      }
    }
  }

  /** Two removals that both end inside the front element advance its offset twice. */
  lemma DropInsideFrontTwice(es: seq<Element>, a: nat, b: nat)
    requires WellFormed(es) && es != [] && 0 < a < |es[0].data| - es[0].consumed && a + b <= Remaining(es)
    ensures DropFront(DropFront(es, a), b) == DropFront(es, a + b)
  {
    var r := |es[0].data| - es[0].consumed;
    var e' := Element(es[0].data, es[0].consumed + a);
    var es' := [e'] + es[1..];
    assert DropFront(es, a) == es';
    assert es'[0] == e' && es'[1..] == es[1..];
    if b > 0 && b >= r - a {
      assert DropFront(es', b) == DropFront(es[1..], b - (r - a));
      assert DropFront(es, a + b) == DropFront(es[1..], a + b - r);
    } else if b > 0 {
      assert DropFront(es', b) == [Element(es[0].data, es[0].consumed + a + b)] + es[1..];
    }
  }

  /**
   * Removing `a` bytes and then `b` more leaves the same elements as removing
   * `a + b` at once: two Dequeue or Drop calls compose into one.
   */
  lemma {:induction false} DropFrontCompose(es: seq<Element>, a: nat, b: nat)
    requires WellFormed(es) && a + b <= Remaining(es)
    ensures DropFront(DropFront(es, a), b) == DropFront(es, a + b)
    decreases |es|
  {
    if a == 0 {
      assert DropFront(es, a) == es;
    } else {
      var r := |es[0].data| - es[0].consumed;
      if a >= r {
        DropPastFront(es, a);
        DropPastFront(es, a + b);
        assert (a + b) - (|es[0].data| - es[0].consumed) == (a - r) + b;
        DropFrontCompose(es[1..], a - r, b);
      } else {
        DropInsideFrontTwice(es, a, b);
      }
    }
  }

  /**
   * The fast path: an untouched front element whose size is exactly the
   * request is handed out whole and erased; the general path would have
   * copied the same bytes and erased the same element.
   */
  lemma FastPathAgrees(es: seq<Element>, k: nat)
    requires WellFormed(es) && es != [] && es[0].consumed == 0 && |es[0].data| == k > 0
    ensures k <= Remaining(es)
    ensures DropFront(es, k) == es[1..]
    ensures Remaining(es[1..]) == Remaining(es) - k
    ensures Bytes(es)[..k] == es[0].data
  {
    assert Bytes(es) == es[0].data + Bytes(es[1..]);
    assert DropFront(es[1..], 0) == es[1..];
  }

  /**
   * Copying `n` bytes out of element `i`, when the content from element `i`
   * on is what follows the first `done` bytes of `content`.
   */
  lemma CopyOut(es: seq<Element>, i: nat, content: Buffer, done: nat, n: nat)
    requires WellFormed(es) && i < |es| && done <= |content|
    requires Bytes(es[i..]) == content[done..]
    requires n <= |es[i].data| - es[i].consumed
    ensures content[..done + n] == content[..done] + es[i].data[es[i].consumed..es[i].consumed + n]
    ensures WellFormed(es[i + 1..])
    ensures content[done + n..] == es[i].data[es[i].consumed + n..] + Bytes(es[i + 1..])
  {
    assert es[i..][0] == es[i] && es[i..][1..] == es[i + 1..];
    var a := es[i].data[es[i].consumed..];
    assert content == content[..done] + (a + Bytes(es[i + 1..]));
    assert a[..n] == es[i].data[es[i].consumed..es[i].consumed + n];
  }

  /** Copying `n` bytes out of the front element, when the elements hold what follows the first `done` bytes of `content`. */
  lemma CopyOutFront(es: seq<Element>, content: Buffer, done: nat, n: nat)
    requires WellFormed(es) && es != [] && done <= |content|
    requires Bytes(es) == content[done..]
    requires n <= |es[0].data| - es[0].consumed
    ensures content[..done + n] == content[..done] + es[0].data[es[0].consumed..es[0].consumed + n]
    ensures WellFormed(es[1..])
    ensures content[done + n..] == es[0].data[es[0].consumed + n..] + Bytes(es[1..])
  {
    var a := es[0].data[es[0].consumed..];
    assert content == content[..done] + (a + Bytes(es[1..]));
    assert a[..n] == es[0].data[es[0].consumed..es[0].consumed + n];
  }

  /** The deque's `erase` at position `i`: the elements before it stay, the ones after it close up. */
  function EraseAt(es: seq<Element>, i: nat): (r: seq<Element>)
    requires i < |es|
    ensures |r| == |es| - 1
    ensures forall j :: 0 <= j < i ==> r[j] == es[j]
    ensures forall j :: i <= j < |r| ==> r[j] == es[j + 1]
  {
    es[..i] + es[i + 1..]
  }

  /**
   * Advances the consumed offset of element `i` by `n` and erases the
   * element once it is used up.
   */
  function ConsumeAt(es: seq<Element>, i: nat, n: nat): (r: seq<Element>)
    requires i < |es|
    ensures es[i].consumed + n < |es[i].data| ==>
              |r| == |es| && r[i] == Element(es[i].data, es[i].consumed + n)
              && forall j :: 0 <= j < |es| && j != i ==> r[j] == es[j]
    ensures es[i].consumed + n >= |es[i].data| ==>
              |r| == |es| - 1 && r[..i] == es[..i] && r[i..] == es[i + 1..]
  {
    var updated := Element(es[i].data, es[i].consumed + n);
    if updated.consumed >= |updated.data| then EraseAt(es, i) else es[i := updated]
  }

  /**
   * One step of the removing traversal, on the elements: consuming `n`
   * bytes of the front element leaves the outcome of the remaining request
   * unchanged.
   */
  lemma ConsumeFrontState(es: seq<Element>, left: nat, n: nat)
    requires WellFormed(es) && es != [] && 0 < left <= Remaining(es)
    requires n == Min(left, |es[0].data| - es[0].consumed)
    ensures WellFormed(ConsumeAt(es, 0, n))
    ensures Remaining(ConsumeAt(es, 0, n)) == Remaining(es) - n
    ensures DropFront(ConsumeAt(es, 0, n), left - n) == DropFront(es, left)
  {
    var r := |es[0].data| - es[0].consumed;
    var e' := Element(es[0].data, es[0].consumed + n);
    if e'.consumed < |e'.data| {
      // the request ends inside the front element
      assert n == left < r;
      var es' := [e'] + es[1..];
      assert ConsumeAt(es, 0, n) == es';
      assert es'[0] == e' && es'[1..] == es[1..];
      assert Remaining(es') == |e'.data| - e'.consumed + Remaining(es[1..]);
      assert DropFront(es, left) == es';
    } else {
      // the front element is used up
      assert n == r;
      assert ConsumeAt(es, 0, n) == es[1..];
      assert Remaining(es) == r + Remaining(es[1..]);
      assert DropFront(es, left) == DropFront(es[1..], left - r);
    }
  }

  /** The same step, on the content: the front element's bytes after the first `n` come first. */
  lemma ConsumeFrontBytes(es: seq<Element>, n: nat)
    requires WellFormed(es) && es != [] && n <= |es[0].data| - es[0].consumed
    ensures WellFormed(ConsumeAt(es, 0, n)) && WellFormed(es[1..])
    ensures Bytes(ConsumeAt(es, 0, n)) == es[0].data[es[0].consumed + n..] + Bytes(es[1..])
  {
    var e' := Element(es[0].data, es[0].consumed + n);
    if e'.consumed < |e'.data| {
      assert ConsumeAt(es, 0, n) == [e'] + es[1..];
      assert ([e'] + es[1..])[1..] == es[1..];
    } else {
      assert ConsumeAt(es, 0, n) == es[1..];
      assert es[0].data[es[0].consumed + n..] == [];
    }
  }

  /**
   * What holds at the head of the traversal loop: `take` bytes were asked
   * for, `left` of them are still wanted, `buffer` holds what was copied out
   * so far, and (when removing) the elements still due to lose `left` bytes
   * end where the whole request ends; (when only peeking) the elements from
   * `i` on still hold the bytes wanted.
   */
  ghost predicate Traversal(es0: seq<Element>, content0: Buffer, take: nat, es: seq<Element>, total: nat,
                            i: nat, left: nat, buffer: Buffer, returnData: bool, removeData: bool)
  {
    && WellFormed(es0) && take <= Remaining(es0)
    && WellFormed(es) && total == Remaining(es)
    && left <= take <= |content0| && i <= |es|
    && (left > 0 ==> i < |es|)
    && (returnData ==> buffer == content0[..take - left])
    && (!returnData ==> buffer == [])
    && (removeData ==>
          && i == 0 && left <= Remaining(es)
          && DropFront(es, left) == DropFront(es0, take)
          && Bytes(es) == content0[take - left..])
    && (!removeData ==>
          && es == es0
          && (left > 0 ==> WellFormed(es[i..]) && Bytes(es[i..]) == content0[take - left..]))
  }

  /** What the traversal promises once it stops. */
  ghost predicate Traversed(es0: seq<Element>, content0: Buffer, take: nat, es: seq<Element>, total: nat,
                            buffer: Buffer, returnData: bool, removeData: bool)
    requires WellFormed(es0) && take <= Remaining(es0)
  {
    && WellFormed(es) && total == Remaining(es) && take <= |content0|
    && (returnData ==> buffer == content0[..take])
    && (!returnData ==> buffer == [])
    && (removeData ==> es == DropFront(es0, take) && Bytes(es) == content0[take..])
    && (!removeData ==> es == es0)
  }

  lemma TraversalStart(es0: seq<Element>, take: nat, returnData: bool, removeData: bool)
    requires WellFormed(es0) && take <= Remaining(es0)
    ensures Traversal(es0, Bytes(es0), take, es0, Remaining(es0), 0, take, [], returnData, removeData)
  {
    assert es0[0..] == es0;
    if take > 0 {
      assert es0 != [];
    }
  }

  lemma TraversalDone(es0: seq<Element>, content0: Buffer, take: nat, es: seq<Element>, total: nat,
                      i: nat, buffer: Buffer, returnData: bool, removeData: bool)
    requires WellFormed(es0) && take <= Remaining(es0)
    requires Traversal(es0, content0, take, es, total, i, 0, buffer, returnData, removeData)
    ensures Traversed(es0, content0, take, es, total, buffer, returnData, removeData)
  {
  }

  /**
   * The removing step on the content: consuming `n` bytes of the front
   * element, when the elements hold what follows the first `take - left`
   * bytes of `content0` and lose `left` more bytes before the request ends.
   */
  lemma ConsumeFrontContent(es0: seq<Element>, content0: Buffer, take: nat, es: seq<Element>, left: nat, n: nat)
    requires WellFormed(es0) && take <= Remaining(es0)
    requires WellFormed(es) && es != [] && 0 < left <= Remaining(es) && left <= take <= |content0|
    requires DropFront(es, left) == DropFront(es0, take) && Bytes(es) == content0[take - left..]
    requires n == Min(left, |es[0].data| - es[0].consumed)
    ensures WellFormed(ConsumeAt(es, 0, n)) && Remaining(ConsumeAt(es, 0, n)) == Remaining(es) - n
    ensures DropFront(ConsumeAt(es, 0, n), left - n) == DropFront(es0, take)
    ensures Bytes(ConsumeAt(es, 0, n)) == content0[take - (left - n)..]
    ensures content0[..take - (left - n)] == content0[..take - left] + es[0].data[es[0].consumed..es[0].consumed + n]
  {
    var done := take - left;
    assert take - (left - n) == done + n;
    assert WellFormed(ConsumeAt(es, 0, n)) && Remaining(ConsumeAt(es, 0, n)) == Remaining(es) - n
        && DropFront(ConsumeAt(es, 0, n), left - n) == DropFront(es0, take) by {
      ConsumeFrontState(es, left, n);
    }
    assert Bytes(ConsumeAt(es, 0, n)) == content0[done + n..] by {
      CopyOutFront(es, content0, done, n);
      ConsumeFrontBytes(es, n);
    }
    assert content0[..done + n] == content0[..done] + es[0].data[es[0].consumed..es[0].consumed + n] by {
      CopyOutFront(es, content0, done, n);
    }
  }

  /** The general path, when removing, copies and consumes `n` bytes of the front element. */
  lemma RemovingStep(es0: seq<Element>, content0: Buffer, take: nat, es: seq<Element>, total: nat,
                     left: nat, buffer: Buffer, returnData: bool, n: nat, buffer': Buffer)
    requires Traversal(es0, content0, take, es, total, 0, left, buffer, returnData, true)
    requires left > 0 && n == Min(left, |es[0].data| - es[0].consumed)
    requires buffer' == if returnData then buffer + es[0].data[es[0].consumed..es[0].consumed + n] else buffer
    ensures Traversal(es0, content0, take, ConsumeAt(es, 0, n), total - n, 0, left - n, buffer', returnData, true)
  {
    ConsumeFrontContent(es0, content0, take, es, left, n);
  }

  /** The general path, when only peeking, copies `n` bytes of element `i` and may move on. */
  lemma PeekingStep(es0: seq<Element>, content0: Buffer, take: nat, es: seq<Element>, total: nat,
                    i: nat, left: nat, buffer: Buffer, returnData: bool, n: nat, i': nat, buffer': Buffer)
    requires Traversal(es0, content0, take, es, total, i, left, buffer, returnData, false)
    requires left > 0 && n == Min(left, |es[i].data| - es[i].consumed)
    requires buffer' == if returnData then buffer + es[i].data[es[i].consumed..es[i].consumed + n] else buffer
    requires i' == if es[i].consumed + n >= |es[i].data| then i + 1 else i
    ensures Traversal(es0, content0, take, es, total, i', left - n, buffer', returnData, false)
  {
    var done := take - left;
    assert returnData ==> buffer' == content0[..done + n] by {
      CopyOut(es, i, content0, done, n);
    }
    assert left - n > 0 ==> i' < |es| && WellFormed(es[i'..]) && Bytes(es[i'..]) == content0[done + n..] by {
      CopyOut(es, i, content0, done, n);
      if es[i].consumed + n >= |es[i].data| {
        assert es[i].data[es[i].consumed + n..] == [];
        if left - n > 0 {
          assert Bytes(es[i + 1..]) != [];
        }
      } else {
        // the element outlasts the request, so nothing is left to want
        assert left - n == 0;
      }
    }
    assert take - (left - n) == done + n;
  }

  /**
   * The fast path hands out element `i` whole: it is untouched, its size is
   * what is still wanted, and nothing has been copied out yet.
   */
  lemma TraversalFastPath(es0: seq<Element>, content0: Buffer, take: nat, es: seq<Element>, total: nat,
                          i: nat, left: nat, buffer: Buffer, returnData: bool, removeData: bool,
                          es': seq<Element>, total': nat, buffer': Buffer)
    requires WellFormed(es0) && take <= Remaining(es0)
    requires Traversal(es0, content0, take, es, total, i, left, buffer, returnData, removeData)
    requires left > 0 && es[i].consumed == 0 && |es[i].data| == left && buffer == []
    requires buffer' == if returnData then es[i].data else buffer
    requires es' == if removeData then EraseAt(es, i) else es
    requires total' == if removeData then total - left else total
    ensures Traversed(es0, content0, take, es', total', buffer', returnData, removeData)
  {
    var done := take - left;
    CopyOut(es, i, content0, done, left);
    assert es[i].data[0..left] == es[i].data;
    if removeData {
      assert es[i..] == es;
      FastPathAgrees(es, left);
      assert es' == es[1..];
      assert es[1..] == es[i + 1..];
    }
  }

  /**
   * The general path of the traversal, one element at a time: copies what
   * is still wanted of element `nextElement` (when `returnData`) and either
   * consumes it (when `removeData`) or moves past it once it is exhausted.
   */
  method CopyFromElement(ghost es0: seq<Element>, ghost content0: Buffer, ghost take: nat,
                         es: seq<Element>, total: nat, nextElement: nat, bytesLeftFromQueue: nat,
                         buffer: Buffer, returnData: bool, removeData: bool)
    returns (es': seq<Element>, total': nat, nextElement': nat, bytesLeftFromQueue': nat, buffer': Buffer)
    requires bytesLeftFromQueue > 0
    requires Traversal(es0, content0, take, es, total, nextElement, bytesLeftFromQueue, buffer, returnData, removeData)
    ensures Traversal(es0, content0, take, es', total', nextElement', bytesLeftFromQueue', buffer', returnData, removeData)
    ensures bytesLeftFromQueue' < bytesLeftFromQueue
         || (bytesLeftFromQueue' == bytesLeftFromQueue && |es'| - nextElement' < |es| - nextElement)
  {
    var e := es[nextElement];
    var bytesToConsume := Min(bytesLeftFromQueue, |e.data| - e.consumed);
    buffer' := buffer;
    if returnData {
      buffer' := buffer + e.data[e.consumed..e.consumed + bytesToConsume];
    }
    bytesLeftFromQueue' := bytesLeftFromQueue - bytesToConsume;
    es', total', nextElement' := es, total, nextElement;
    if removeData {
      es' := ConsumeAt(es, nextElement, bytesToConsume);
      total' := total - bytesToConsume;
      RemovingStep(es0, content0, take, es, total, bytesLeftFromQueue, buffer, returnData, bytesToConsume, buffer');
    } else {
      if e.consumed + bytesToConsume >= |e.data| {
        nextElement' := nextElement + 1;
      }
      PeekingStep(es0, content0, take, es, total, nextElement, bytesLeftFromQueue, buffer, returnData,
                  bytesToConsume, nextElement', buffer');
    }
  }

  /**
   * The one traversal behind Dequeue, Peek and Drop (the implementation
   * object's `Dequeue`), on the queue's state `elements`/`totalBytes`:
   * takes up to `numBytesRequested` bytes from the front, copying them out
   * when `returnData` and consuming them when `removeData`, and returns the
   * copied bytes with the new state.
   */
  method ImplDequeue(elements: seq<Element>, totalBytes: nat, numBytesRequested: SizeT,
                     returnData: bool, removeData: bool)
    returns (buffer: Buffer, elements': seq<Element>, totalBytes': nat)
    requires WellFormed(elements) && totalBytes == Remaining(elements)
    ensures WellFormed(elements') && totalBytes' == Remaining(elements')
    ensures returnData ==> buffer == Bytes(elements)[..Min(numBytesRequested, totalBytes)]
    ensures !returnData ==> buffer == []
    ensures removeData ==> elements' == DropFront(elements, Min(numBytesRequested, totalBytes))
    ensures removeData ==> totalBytes' == totalBytes - Min(numBytesRequested, totalBytes)
    ensures removeData ==> Bytes(elements') == Bytes(elements)[Min(numBytesRequested, totalBytes)..]
    ensures !removeData ==> elements' == elements && totalBytes' == totalBytes
    ensures numBytesRequested == 0 ==> buffer == [] && elements' == elements && totalBytes' == totalBytes
  {
    buffer := [];
    var es: seq<Element>, total: nat := elements, totalBytes;
    var nextElement: nat := 0;
    var bytesLeftFromQueue: nat := Min(numBytesRequested, total);
    ghost var take := bytesLeftFromQueue;
    ghost var content0 := Bytes(elements);
    TraversalStart(elements, take, returnData, removeData);
    while bytesLeftFromQueue > 0
      invariant Traversal(elements, content0, take, es, total, nextElement,
                          bytesLeftFromQueue, buffer, returnData, removeData)
      decreases bytesLeftFromQueue, |es| - nextElement
    {
      ghost var es1, total1, i1, left1, buffer1 := es, total, nextElement, bytesLeftFromQueue, buffer;
      var e := es[nextElement];
      if e.consumed == 0 && |e.data| == bytesLeftFromQueue && buffer == [] {
        if returnData {
          buffer := e.data;
        }
        if removeData {
          es := EraseAt(es, nextElement);
          total := total - bytesLeftFromQueue;
        }
        TraversalFastPath(elements, content0, take, es1, total1, i1, left1, buffer1, returnData, removeData,
                          es, total, buffer);
        break;
      }
      es, total, nextElement, bytesLeftFromQueue, buffer :=
        CopyFromElement(elements, content0, take, es, total, nextElement, bytesLeftFromQueue, buffer,
                        returnData, removeData);
    }
    if bytesLeftFromQueue == 0 {
      // the loop ran out of bytes to take rather than handing a buffer over whole
      TraversalDone(elements, content0, take, es, total, nextElement, buffer, returnData, removeData);
    }
    return buffer, es, total;
  }

  class DataQueue {
    /** The queued buffers, front first. */
    var elements: seq<Element>
    /** The number of bytes queued and not yet consumed. */
    var totalBytes: nat

    ghost predicate Valid()
      reads this
    {
      WellFormed(elements) && totalBytes == Remaining(elements)
    }

    /** What the queue holds: the unconsumed bytes, in order. */
    ghost function Contents(): (c: Buffer)
      reads this
      requires Valid()
      ensures |c| == totalBytes
    {
      Bytes(elements)
    }

    constructor ()
      ensures Valid() && elements == [] && totalBytes == 0 && Contents() == []
    {
      elements := [];
      totalBytes := 0;
    }

    /**
     * Puts `data` at the back of the queue. Both C++ overloads (copy and
     * move) do this; on values they are the same operation.
     */
    method Enqueue(data: Buffer)
      requires Valid()
      modifies this
      ensures Valid()
      ensures elements == old(elements) + [Element(data, 0)]
      ensures totalBytes == old(totalBytes) + |data|
      ensures Contents() == old(Contents()) + data
    {
      BytesAppend(elements, Element(data, 0));
      totalBytes := totalBytes + |data|;
      elements := elements + [Element(data, 0)];
    }

    /** Removes and returns up to `numBytesRequested` bytes from the front. */
    method Dequeue(numBytesRequested: SizeT) returns (r: Buffer)
      requires Valid()
      modifies this
      ensures Valid()
      ensures r == old(Contents())[..Min(numBytesRequested, old(totalBytes))]
      ensures Contents() == old(Contents())[Min(numBytesRequested, old(totalBytes))..]
      ensures elements == DropFront(old(elements), Min(numBytesRequested, old(totalBytes)))
      ensures totalBytes == old(totalBytes) - Min(numBytesRequested, old(totalBytes))
      ensures numBytesRequested >= old(totalBytes) ==> r == old(Contents()) && totalBytes == 0
    {
      r, elements, totalBytes := ImplDequeue(elements, totalBytes, numBytesRequested, true, true);
    }

    /** Returns up to `numBytesRequested` bytes from the front, leaving the queue as it was. */
    method Peek(numBytesRequested: SizeT) returns (r: Buffer)
      requires Valid()
      ensures r == Contents()[..Min(numBytesRequested, totalBytes)]
    {
      var es, total;
      r, es, total := ImplDequeue(elements, totalBytes, numBytesRequested, true, false);
    }

    /** Removes up to `numBytesRequested` bytes from the front without copying them. */
    method Drop(numBytesRequested: SizeT)
      requires Valid()
      modifies this
      ensures Valid()
      ensures Contents() == old(Contents())[Min(numBytesRequested, old(totalBytes))..]
      ensures elements == DropFront(old(elements), Min(numBytesRequested, old(totalBytes)))
      ensures totalBytes == old(totalBytes) - Min(numBytesRequested, old(totalBytes))
    {
      var _, es, total := ImplDequeue(elements, totalBytes, numBytesRequested, false, true);
      elements, totalBytes := es, total;
    }

    /** The number of distinct buffers held. */
    function GetBuffersQueued(): (n: nat)
      reads this
      ensures n == |elements|
    {
      |elements|
    }

    /** The number of bytes held, counted by the running total. */
    function GetBytesQueued(): (n: nat)
      reads this
      requires Valid()
      ensures n == |Contents()|
    {
      totalBytes
    }
  }
}
