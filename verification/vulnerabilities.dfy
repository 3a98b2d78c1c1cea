/** The vulnerability record the dashboard computes with, reduced to the
    fields its summaries, rankings, risk rules and ordering read. CVSS
    scores are integer tenths (7.5 is 75), and a publication date is the
    year and the instant `new Date(published_date)` gives. */
module Vulnerabilities {
  datatype PublishedDate = PublishedDate(year: int, time: int)

  datatype Vulnerability = Vulnerability(
    severity: string,
    status: string,
    vendor: string,
    product: string,
    cvss: int,
    isKev: bool,
    hasPoc: bool,
    hasTemplate: bool,
    published: PublishedDate)

  /** The column of one field, in list order. */
  function Severities(vs: seq<Vulnerability>): (r: seq<string>)
    ensures |r| == |vs| && forall i :: 0 <= i < |vs| ==> r[i] == vs[i].severity
  {
    seq(|vs|, i requires 0 <= i < |vs| => vs[i].severity)
  }

  function Statuses(vs: seq<Vulnerability>): (r: seq<string>)
    ensures |r| == |vs| && forall i :: 0 <= i < |vs| ==> r[i] == vs[i].status
  {
    seq(|vs|, i requires 0 <= i < |vs| => vs[i].status)
  }

  function Vendors(vs: seq<Vulnerability>): (r: seq<string>)
    ensures |r| == |vs| && forall i :: 0 <= i < |vs| ==> r[i] == vs[i].vendor
  {
    seq(|vs|, i requires 0 <= i < |vs| => vs[i].vendor)
  }

  function Products(vs: seq<Vulnerability>): (r: seq<string>)
    ensures |r| == |vs| && forall i :: 0 <= i < |vs| ==> r[i] == vs[i].product
  {
    seq(|vs|, i requires 0 <= i < |vs| => vs[i].product)
  }
}
