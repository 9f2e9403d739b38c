/**
 * `AppState`: the three stores every handler shares.  Each handler is
 * modelled as one atomic step over them; the stores are the in-memory ones.
 */
module Store {
  import UserStoreImpl
  import BannedTokenStoreImpl
  import TwoFACodeStoreImpl

  class AppState {
    const userStore: UserStoreImpl.HashmapUserStore
    const bannedTokensStore: BannedTokenStoreImpl.HashmapBannedTokenStore
    const twoFACodeStore: TwoFACodeStoreImpl.HashmapTwoFACodeStore

    ghost predicate Valid()
      reads userStore, bannedTokensStore
    {
      userStore.Valid() && bannedTokensStore.Valid()
    }

    constructor (userStore: UserStoreImpl.HashmapUserStore,
                 bannedTokensStore: BannedTokenStoreImpl.HashmapBannedTokenStore,
                 twoFACodeStore: TwoFACodeStoreImpl.HashmapTwoFACodeStore)
      ensures this.userStore == userStore
      ensures this.bannedTokensStore == bannedTokensStore
      ensures this.twoFACodeStore == twoFACodeStore
    {
      this.userStore := userStore;
      this.bannedTokensStore := bannedTokensStore;
      this.twoFACodeStore := twoFACodeStore;
    }
  }
}
