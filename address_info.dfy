/**
 * The contact bar of a camp's detail page
 * (src/components/camp/AddressInfo.js): the street address, the telephone
 * number with its `tel:` link, and the homepage link, each with a fixed
 * text when the value is missing.
 */
module AddressInfo {
  import opened Wrappers
  import Text

  const NoAddressText: string := "도로명 주소 정보 없음"
  const NoContactText: string := "연락처 정보 없음"
  const NoHomepageText: string := "홈페이지 정보 없음"
  const HomepageLinkText: string := "홈페이지 바로가기"

  /** `s.replace(/-/g, '')` */
  function RemoveDashes(s: string): (r: string)
    ensures '-' !in r
    ensures |r| == |s| - Text.Count(s, '-')
  {
    if s == [] then ""
    else if s[0] == '-' then RemoveDashes(s[1..])
    else [s[0]] + RemoveDashes(s[1..])
  }

  /** `formatTel`: nothing for a missing or empty number, otherwise the number without dashes. */
  function FormatTel(tel: Option<string>): (r: Option<string>)
    ensures r.None? <==> tel.None? || tel.value == ""
    ensures r.Some? ==> '-' !in r.value && |r.value| == |tel.value| - Text.Count(tel.value, '-')
  {
    if tel.None? || tel.value == "" then None else Some(RemoveDashes(tel.value))
  }

  /**
   * Removing the dashes keeps every other character, in order: the
   * character at `i` moves left by the number of dashes before it.
   */
  lemma {:induction false} RemoveDashesKeepsOthers(s: string, i: nat)
    requires i < |s| && s[i] != '-'
    ensures 0 <= i - Text.Count(s[..i], '-') < |RemoveDashes(s)|
    ensures RemoveDashes(s)[i - Text.Count(s[..i], '-')] == s[i]
  {
    if i > 0 {
      RemoveDashesKeepsOthers(s[1..], i - 1);
      assert s[1..][..i - 1] == s[..i][1..];
      assert s[..i][0] == s[0];
    } else {
      assert s[..0] == [];
    }
  }

  /** All characters of `s` are dashes exactly when the count of dashes is its length. */
  lemma {:induction false} AllDashes(s: string)
    ensures Text.Count(s, '-') == |s| <==> forall i :: 0 <= i < |s| ==> s[i] == '-'
    ensures Text.Count(s, '-') <= |s|
  {
    if s != [] {
      AllDashes(s[1..]);
      assert forall i :: 1 <= i < |s| ==> s[i] == s[1..][i - 1];
    }
  }

  lemma {:induction false} RemoveDashesIdempotent(s: string)
    ensures RemoveDashes(RemoveDashes(s)) == RemoveDashes(s)
  {
    if s != [] {
      RemoveDashesIdempotent(s[1..]);
      if s[0] != '-' {
        assert ([s[0]] + RemoveDashes(s[1..]))[1..] == RemoveDashes(s[1..]);
      }
    }
  }

  /**
   * Formatting a formatted number changes nothing exactly when the number
   * has a character other than a dash; a number of dashes only formats to
   * the empty string, which formats to nothing.
   */
  lemma FormatTelIdempotent(tel: string)
    requires tel != ""
    ensures FormatTel(FormatTel(Some(tel))) == FormatTel(Some(tel)) <==>
      exists i :: 0 <= i < |tel| && tel[i] != '-'
  {
    AllDashes(tel);
    RemoveDashesIdempotent(tel);
  }

  /** The telephone part of the bar. */
  datatype Contact = TelLink(href: string, text: string) | ContactText(text: string)

  /**
   * A `tel:` link to the number without dashes, labelled with the number as
   * given, exactly when the number has a character other than a dash.
   */
  function ContactView(tel: Option<string>): (v: Contact)
    ensures v.TelLink? <==> tel.Some? && exists i :: 0 <= i < |tel.value| && tel.value[i] != '-'
    ensures v.TelLink? ==> v.href == "tel:" + RemoveDashes(tel.value) && v.text == tel.value
    ensures v.ContactText? ==> v.text == NoContactText
  {
    var formatted := FormatTel(tel);
    AllDashes(tel.GetOr(""));
    if formatted.Some? && formatted.value != "" then TelLink("tel:" + formatted.value, tel.value)
    else ContactText(NoContactText)
  }

  /** The address, or the fixed text when it is missing or empty. */
  function AddressText(address: Option<string>): (text: string)
    ensures address.Some? && address.value != "" ==> text == address.value
    ensures address.None? || address.value == "" ==> text == NoAddressText
  {
    if address.Some? && address.value != "" then address.value else NoAddressText
  }

  /** The homepage part of the bar. */
  datatype Homepage = HomepageLink(href: string, text: string) | HomepageText(text: string)

  /** A link to the homepage, or the fixed text when it is missing or empty. */
  function HomepageView(homepage: Option<string>): (v: Homepage)
    ensures v.HomepageLink? <==> homepage.Some? && homepage.value != ""
    ensures v.HomepageLink? ==> v.href == homepage.value && v.text == HomepageLinkText
    ensures v.HomepageText? ==> v.text == NoHomepageText
  {
    if homepage.Some? && homepage.value != "" then HomepageLink(homepage.value, HomepageLinkText)
    else HomepageText(NoHomepageText)
  }
}
