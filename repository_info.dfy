/** `caddygit.RepositoryInfo`, which the services receive from the client:
    its type is not part of this model beyond the two fields the webhooks
    read. */
module RepositoryInfo {
  import opened Git

  datatype RepositoryInfo = RepositoryInfo(referenceName: RefName, latestTag: bool)
}
