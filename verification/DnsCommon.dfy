/** What the DNS client and the DNS router share. */
module DnsCommon {

  type Address = nat

  datatype Strategy = AsIs | PreferIPv4 | PreferIPv6 | IPv4Only | IPv6Only
}
