/**
 * The camp record as the search and bookmark endpoints return it, the
 * outcome of an awaited service call, and the card introduction line that
 * both list pages derive from a camp.
 */
module Camps {
  import opened Wrappers
  import Text

  /**
   * A camp as listed by the API. `lineIntro` and `keywords` may be absent;
   * `thumbImage` only feeds the image and is not modelled.
   */
  datatype Camp = Camp(
    campId: int,
    name: string,
    streetAddr: string,
    lineIntro: Option<string>,
    keywords: Option<seq<string>>,
    marked: bool)

  /** How an awaited service call settles: resolved with a value, or rejected. */
  datatype Fetch<T> = Resolved(value: T) | Rejected

  /** The words placed between the short address and the camp name. */
  const IntroLinker: string := "에 있는 "

  /** JavaScript truthiness of an optional string: present and non-empty. */
  predicate Truthy(s: Option<string>)
  {
    s.Some? && s.value != ""
  }

  /** A prefix followed by a space has fewer spaces than the whole. */
  lemma SpaceAfterPrefix(p: string, s: string)
    requires p + [' '] <= s
    ensures Text.Count(p, ' ') + 1 <= Text.Count(s, ' ')
  {
    var q := p + [' '];
    assert s == q + s[|q|..];
    Text.CountAppend(q, s[|q|..], ' ');
    Text.CountAppend(p, [' '], ' ');
    assert Text.Count([' '], ' ') == 1;
  }

  /**
   * `streetAddr.split(' ').slice(0, 2).join(' ')`: the address up to, and
   * not including, its second space (the whole address when it has fewer).
   */
  function AddressHead(addr: string): (head: string)
    ensures head <= addr
    ensures Text.Count(head, ' ') <= 1
    ensures head == addr || (addr[|head|] == ' ' && Text.Count(head, ' ') == 1)
  {
    var words := Text.Split(addr, ' ');
    var taken := words[..if |words| < 2 then |words| else 2];
    Text.JoinSplit(addr, ' ');
    Text.JoinTakePrefix(words, |taken|, ' ');
    Text.CountJoin(taken, ' ');
    if |words| > 2 then
      assert Text.Join(taken, ' ') + [' '] <= addr;
      Text.Join(taken, ' ')
    else
      assert taken == words;
      Text.Join(taken, ' ')
  }

  /**
   * The three properties of AddressHead pin it down: any prefix of the
   * address with at most one space that either is the whole address or
   * stops at its second space is the address head.
   */
  lemma {:induction false} AddressHeadUnique(addr: string, h: string)
    requires h <= addr && Text.Count(h, ' ') <= 1
    requires h == addr || (addr[|h|] == ' ' && Text.Count(h, ' ') == 1)
    ensures h == AddressHead(addr)
  {
    var g := AddressHead(addr);
    if h != g {
      if |h| < |g| {
        SpaceAfterPrefix(h, g);
      } else {
        SpaceAfterPrefix(g, h);
      }
      assert false;
    }
  }

  /**
   * The introduction shown on a card: the camp's own `lineIntro` when it is
   * truthy, otherwise the short address followed by the camp name.
   */
  function LineIntro(camp: Camp): (intro: string)
    ensures Truthy(camp.lineIntro) ==> intro == camp.lineIntro.value
    ensures !Truthy(camp.lineIntro) ==>
      exists head :: head <= camp.streetAddr && Text.Count(head, ' ') <= 1 &&
        (head == camp.streetAddr || (camp.streetAddr[|head|] == ' ' && Text.Count(head, ' ') == 1)) &&
        intro == head + IntroLinker + camp.name
  {
    if Truthy(camp.lineIntro) then camp.lineIntro.value
    else
      var head := AddressHead(camp.streetAddr);
      assert head <= camp.streetAddr && Text.Count(head, ' ') <= 1;
      head + IntroLinker + camp.name
  }

  /**
   * For an address with at most one space (a city and a district, say) the
   * fallback introduction names the whole address.
   */
  lemma ShortAddressIntro(camp: Camp)
    requires !Truthy(camp.lineIntro)
    requires Text.Count(camp.streetAddr, ' ') <= 1
    ensures LineIntro(camp) == camp.streetAddr + IntroLinker + camp.name
  {
    var head := AddressHead(camp.streetAddr);
    if head != camp.streetAddr {
      SpaceAfterPrefix(head, camp.streetAddr);
      assert false;
    }
  }
}
