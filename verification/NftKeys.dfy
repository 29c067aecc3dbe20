/** What the collectors call an NFT. */
module NftKeys {

  /** Contract addresses are in lower case throughout. */
  datatype NftKey = NftKey(contract: string, token: nat)
}
