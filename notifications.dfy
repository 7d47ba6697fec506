/**
 * The toast notifications in the document, in document order. Showing a
 * notification first removes the first one present, then appends the new
 * one; dismissing one removes it if it is still there.
 */
module Notifications {

  /** One toast; `id` tells apart toasts with the same text. */
  datatype Notification = Notification(id: nat, message: string, variant: string)

  /** The background tint chosen by the variant. */
  datatype Tint = Green | Red | Gold

  function TintOf(variant: string): (t: Tint)
    ensures t == Green <==> variant == "success"
    ensures t == Red <==> variant == "error"
  {
    if variant == "success" then Green
    else if variant == "error" then Red
    else Gold
  }

  /** The toasts present after showing `n`: the first toast present (if any)
      is removed and `n` is appended at the end. */
  function AfterShow(toasts: seq<Notification>, n: Notification): (r: seq<Notification>)
    ensures |r| == if toasts == [] then 1 else |toasts|
    ensures r[|r| - 1] == n
    ensures forall m | m in r[..|r| - 1] :: m in toasts
    ensures |toasts| <= 1 ==> r == [n]
  {
    (if toasts == [] then [] else toasts[1..]) + [n]
  }

  /** The toasts present after the toast with the given id is removed
      (nothing changes when it is no longer present). */
  function AfterDismiss(toasts: seq<Notification>, id: nat): (r: seq<Notification>)
    ensures |r| <= |toasts|
    ensures forall m | m in r :: m in toasts && m.id != id
    ensures forall m | m in toasts && m.id != id :: m in r
  {
    if toasts == [] then []
    else if toasts[0].id == id then AfterDismiss(toasts[1..], id)
    else [toasts[0]] + AfterDismiss(toasts[1..], id)
  }

  /** With two toasts present, showing a third leaves two: the single-flight
      removal takes only the first. */
  lemma ShowKeepsSecondOfTwo(a: Notification, b: Notification, n: Notification)
    ensures AfterShow([a, b], n) == [b, n]
  {
    assert [a, b][1..] == [b];
  }
}
