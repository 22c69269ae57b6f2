/**
 * The EtherType of an Ethernet frame: the 16-bit value after the addresses
 * and the label the analyser gives it.  Values up to 1500 are a legacy
 * frame length rather than a protocol (IEEE 802.3 clause 3.2.6), 1501 to
 * 1535 are left undefined, and from 1536 on a fixed table names the known
 * protocols.
 */
module EtherTypes {
  import opened Bytes

  /** An EtherType value with its label (`label()` in the source, `name` here), fixed when it is built. */
  datatype EtherType = EtherType(value: int, name: string)

  /** The `case` arms of the constructor's `switch`: the label of each known code. */
  function KnownLabel(v: int): Option<string>
  {
    match v
      case 0x0800 => Some("IP")
      case 0x0806 => Some("ARP")
      case 0x0842 => Some("WAKE_ON_LAN")
      case 0x22F0 => Some("AVTP")
      case 0x22F3 => Some("IETF_TRILL_PROTO")
      case 0x22EA => Some("STREAM_RES_PROTO")
      case 0x6002 => Some("DEC_MOP_RC")
      case 0x6003 => Some("DECNET_IV_DNA")
      case 0x6004 => Some("DEC_LAT")
      case 0x8035 => Some("RARP")
      case 0x809B => Some("APPLETALK")
      case 0x80F3 => Some("AARP")
      case 0x8100 => Some("VLAN_TAG")
      case 0x8102 => Some("SLPP")
      case 0x8103 => Some("VLACP")
      case 0x8137 => Some("IPX")
      case 0x8204 => Some("QNX_QNET")
      case 0x86DD => Some("IPV6")
      case 0x8808 => Some("ETH_FLOW_CONT")
      case 0x8809 => Some("ETH_SLOW_PROTO")
      case 0x8819 => Some("COBRANET")
      case 0x8847 => Some("MPLS_UNICAST")
      case 0x8848 => Some("MPLS_MULTICAST")
      case 0x8863 => Some("PPPOE_DISCOVERY")
      case 0x8864 => Some("PPPOE_SESSION")
      case 0x887B => Some("HOMEPLUG")
      case 0x888E => Some("EAP_LAN")
      case 0x8892 => Some("PROFINET")
      case 0x889A => Some("HYPERSCI")
      case 0x88A2 => Some("ATA_ETH")
      case 0x88A4 => Some("ETHCAT_PROTO")
      case 0x88A8 => Some("VLAN_S_TAG")
      case 0x88AB => Some("ETH_POWERLINK")
      case 0x88B8 => Some("GOOSE")
      case 0x88B9 => Some("GSE")
      case 0x88BA => Some("SV")
      case 0x88BF => Some("MIKROTIK_RMON")
      case 0x88CC => Some("LLDP")
      case 0x88CD => Some("SERCOS_III")
      case 0x88E1 => Some("HOMEPLUG_PHY")
      case 0x88E3 => Some("MR_PROTO")
      case 0x88E5 => Some("MAC_SEC")
      case 0x88E7 => Some("PBB")
      case 0x88F7 => Some("PTP")
      case 0x88F8 => Some("NC_SI")
      case 0x88FB => Some("PRP")
      case 0x8902 => Some("CFM/OAM")
      case 0x8906 => Some("FCOE")
      case 0x8914 => Some("FCOE_INIT_PROTO")
      case 0x8915 => Some("ROCE")
      case 0x891D => Some("TTETH_PROTO_CONT_FRAME")
      case 0x893A => Some("IEEE_1905_PROTO")
      case 0x892F => Some("HSR")
      case 0x9000 => Some("ETH_CONF_TESTING_PROTO")
      case 0xF1C1 => Some("REDUNDANCY_TAG")
      case _ => None
  }

  /**
   * `new EtherType(v)`: the value is kept unchanged and labelled "LENGTH"
   * exactly on [0, 1500], "UNDEFINED" exactly on [1501, 1535] (and, as the
   * constructor's last `else`, on negative values, which no caller passes),
   * by the table from 1536 on, and "UNKNOWN" exactly for the values from
   * 1536 on that the table lacks.
   */
  function Classify(v: int): (e: EtherType)
    ensures e.value == v
    ensures e.name == "LENGTH" <==> 0 <= v <= 1500
    ensures e.name == "UNDEFINED" <==> v < 0 || 1501 <= v <= 1535
    ensures e.name == "UNKNOWN" <==> v >= 1536 && KnownLabel(v).None?
    ensures v >= 1536 && KnownLabel(v).Some? ==> e.name == KnownLabel(v).value
  {
    if 0 <= v <= 1500 then EtherType(v, "LENGTH")
    else if v >= 1536 then
      match KnownLabel(v)
      case Some(name) => EtherType(v, name)
      case None => EtherType(v, "UNKNOWN")
    else EtherType(v, "UNDEFINED")
  }
}
