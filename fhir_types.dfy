/**
 * The slice of the FHIR STU3 object model that the bundle factory touches:
 * identities, resources with their references and contained resources,
 * bundle entries, links and the Bundle resource itself.
 */
module FhirTypes {

  datatype Option<+T> = None | Some(value: T)

  /** Character.isWhitespace, which StringUtils.isBlank uses. */
  predicate IsWhitespace(c: char) {
    || c == ' ' || c == '\t' || c == '\n' || c == '\r'
    || c == '\U{000B}' || c == '\U{000C}'
    || ('\U{001C}' <= c <= '\U{001F}')
    || c == '\U{1680}' || ('\U{2000}' <= c <= '\U{2006}') || ('\U{2008}' <= c <= '\U{200A}')
    || c == '\U{2028}' || c == '\U{2029}' || c == '\U{205F}' || c == '\U{3000}'
  }

  predicate IsBlank(s: string) {
    forall i :: 0 <= i < |s| ==> IsWhitespace(s[i])
  }

  /** StringUtils.isNotBlank on a nullable string: null counts as blank. */
  predicate NotBlank(s: Option<string>) {
    s.Some? && !IsBlank(s.value)
  }

  /**
   * A resource identity, `[base/]Type/idPart[/_history/version]`, kept as its
   * parts rather than as text.  Two identities are the same exactly when all
   * their parts are.
   */
  datatype Identity = Identity(
    base: Option<string>,
    resourceType: Option<string>,
    idPart: Option<string>,
    version: Option<string>)

  predicate HasBaseUrl(id: Identity) { NotBlank(id.base) }
  predicate HasResourceType(id: Identity) { NotBlank(id.resourceType) }
  predicate HasIdPart(id: Identity) { NotBlank(id.idPart) }
  predicate HasVersion(id: Identity) { NotBlank(id.version) }

  /** An identity whose textual value is blank. */
  predicate IsEmpty(id: Identity) {
    !HasBaseUrl(id) && !HasResourceType(id) && !HasIdPart(id) && !HasVersion(id)
  }

  function Versionless(id: Identity): Identity { id.(version := None) }

  function Unqualified(id: Identity): Identity { id.(base := None) }

  function WithResourceType(id: Identity, resourceType: string): Identity {
    id.(resourceType := Some(resourceType))
  }

  function WithServerBase(id: Identity, serverBase: string, resourceType: string): Identity {
    Identity(Some(serverBase), Some(resourceType), id.idPart, id.version)
  }

  /** HTTP verbs a transaction entry may carry. */
  datatype HttpVerb = GET | POST | PUT | DELETE

  datatype SearchMode = Match | Include | Outcome

  datatype BundleType =
    | Document | Message | Transaction | TransactionResponse | Batch
    | BatchResponse | History | Searchset | Collection

  predicate IsResponse(t: Option<BundleType>) {
    t == Some(BatchResponse) || t == Some(TransactionResponse)
  }

  /** An `_include` parameter of the request, handed unchanged to the inclusion rule. */
  datatype IncludeSpec = IncludeSpec(value: string)

  /**
   * One reference found inside a resource: the type of the owning resource,
   * the path of the element, and the handle of the resolved target resource
   * (None when the reference is not resolved).
   */
  datatype RefInfo = RefInfo(owner: string, path: string, target: Option<nat>)

  /** The inclusion rule's shouldIncludeReferencedResource. */
  type InclusionRule = (RefInfo, set<IncludeSpec>) -> bool

  /**
   * A resource: its identity, its runtime FHIR type name, the ids of its
   * contained resources (empty for a resource that is not a DomainResource),
   * the references the terser finds in it, and the transaction-method and
   * search-mode metadata attached to it upstream.
   */
  datatype Resource = Resource(
    id: Identity,
    typeName: string,
    contained: seq<Identity>,
    refs: seq<RefInfo>,
    transactionMethod: Option<HttpVerb>,
    searchMode: Option<SearchMode>)

  /** An entity tag derived from a version id. */
  datatype ETag = ETag(version: string)

  /** Bundle.entry with its request, response and search parts flattened. */
  datatype Entry = Entry(
    fullUrl: Option<Identity>,
    resource: Option<Resource>,
    requestMethod: Option<HttpVerb>,
    requestUrl: Option<Identity>,
    responseStatus: Option<string>,
    responseLocation: Option<Identity>,
    responseEtag: Option<ETag>,
    searchMode: Option<SearchMode>)

  const NewEntry := Entry(None, None, None, None, None, None, None, None)

  datatype Link = Link(relation: string, url: string)

  const LINK_SELF := "self"
  const LINK_NEXT := "next"
  const LINK_PREVIOUS := "previous"

  /** The bundle-level properties other than the entries. */
  datatype RootProps = RootProps(
    id: Option<string>,
    lastUpdated: Option<string>,
    links: seq<Link>,
    bundleType: Option<BundleType>,
    total: Option<int>)

  const EmptyRoot := RootProps(None, None, [], None, None)

  /** The paging links and server base a request hands to the factory. */
  datatype BundleLinks = BundleLinks(
    serverBase: Option<string>,
    self: Option<string>,
    next: Option<string>,
    prev: Option<string>,
    bundleType: Option<BundleType>)

  /** The Bundle resource, updated in place by the factory and by its callers. */
  class Bundle {
    var id: Option<string>
    var lastUpdated: Option<string>
    var links: seq<Link>
    var bundleType: Option<BundleType>
    var total: Option<int>
    var entries: seq<Entry>

    constructor ()
      ensures Root() == EmptyRoot && entries == []
    {
      id, lastUpdated, links, bundleType, total := None, None, [], None, None;
      entries := [];
    }

    function Root(): RootProps
      reads this
    {
      RootProps(id, lastUpdated, links, bundleType, total)
    }
  }
}
