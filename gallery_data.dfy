/** The mock gallery: twenty-four images and the lookups over them. The
    image addresses are opaque strings no lookup reads; they are a parameter
    here, one per image in list order. */
module GalleryData {
  import opened Text
  import opened Lists

  datatype GalleryImage = GalleryImage(
    id: int,
    url: string,
    caption: Option<string>,
    date: string,
    location: Option<string>,
    category: string)

  const ImageCount: nat := 24

  /** The categories the images of the list use. */
  predicate KnownCategory(c: string) {
    c == "Travel" || c == "Nature" || c == "Urban" || c == "Events"
  }

  /** The columns of `galleryImages`: entry `k` of each belongs to the
      image with id `k + 1`. Every image has a caption and a location. */
  const Captions: seq<string> := [
    "Mountain Morning", "Forest Path", "Coastal Sunset", "City Lights",
    "Winter Lake", "Desert Dunes", "Ocean Blues", "Autumn Trail",
    "Northern Lights", "Garden Blooms", "Rocky Summit", "River Valley",
    "Downtown Streets", "Beach Sunset", "Mountain Range", "City Skyline",
    "Alpine Lake", "Coffee Shop", "Temple Visit", "Waterfall",
    "Festival Night", "Concert Hall", "Wedding Day", "Birthday Party"
  ]

  const Dates: seq<string> := [
    "December 10, 2025", "December 8, 2025", "December 5, 2025", "December 3, 2025",
    "December 1, 2025", "November 28, 2025", "November 25, 2025", "November 20, 2025",
    "November 15, 2025", "November 12, 2025", "November 8, 2025", "November 5, 2025",
    "November 2, 2025", "October 28, 2025", "October 25, 2025", "October 22, 2025",
    "October 18, 2025", "October 15, 2025", "October 12, 2025", "October 8, 2025",
    "October 5, 2025", "October 1, 2025", "September 28, 2025", "September 25, 2025"
  ]

  const Locations: seq<string> := [
    "Swiss Alps", "Black Forest", "Big Sur", "Tokyo",
    "Lake District", "Sahara", "Maldives", "Vermont",
    "Iceland", "Kyoto", "Dolomites", "New Zealand",
    "New York", "Bali", "Patagonia", "Singapore",
    "Canada", "Paris", "Bangkok", "Costa Rica",
    "Barcelona", "Vienna", "Tuscany", "Home"
  ]

  const Categories: seq<string> := [
    "Travel", "Nature", "Nature", "Urban",
    "Nature", "Travel", "Travel", "Nature",
    "Travel", "Nature", "Travel", "Nature",
    "Urban", "Travel", "Nature", "Urban",
    "Nature", "Urban", "Travel", "Nature",
    "Events", "Events", "Events", "Events"
  ]

  /** The categories of the list are the four known ones. */
  lemma CategoriesKnown()
    ensures |Categories| == ImageCount
    ensures forall k :: 0 <= k < |Categories| ==> KnownCategory(Categories[k])
  {
  }

  /** `galleryImages`, with the addresses `urls`. */
  function GalleryImages(urls: seq<string>): (r: seq<GalleryImage>)
    requires |urls| == ImageCount
    ensures |r| == ImageCount
    ensures forall k :: 0 <= k < ImageCount ==>
      r[k] == GalleryImage(k + 1, urls[k], Some(Captions[k]), Dates[k], Some(Locations[k]), Categories[k])
  {
    assert |Captions| == |Dates| == |Locations| == |Categories| == ImageCount;
    seq(ImageCount, k requires 0 <= k < ImageCount =>
      GalleryImage(k + 1, urls[k], Some(Captions[k]), Dates[k], Some(Locations[k]), Categories[k]))
  }

  /** `getAllGalleryImages`: the list as it is, ids 1..24 in order, every
      image of one of four categories. */
  function GetAllGalleryImages(urls: seq<string>): (r: seq<GalleryImage>)
    requires |urls| == ImageCount
    ensures |r| == ImageCount
    ensures forall k :: 0 <= k < |r| ==> r[k].id == k + 1 && r[k].url == urls[k] && KnownCategory(r[k].category)
  {
    CategoriesKnown();
    GalleryImages(urls)
  }

  /** `getGalleryImageById`: the image with that id, or nothing. */
  function GetGalleryImageById(images: seq<GalleryImage>, id: int): (r: Option<GalleryImage>)
    ensures r.Some? ==> r.value in images && r.value.id == id
    ensures r.None? ==> forall k :: 0 <= k < |images| ==> images[k].id != id
  {
    Find(images, (img: GalleryImage) => img.id == id)
  }

  /** Over the list, ids 1..24 find the image at that position and any
      other id nothing. */
  lemma ImageById(urls: seq<string>, id: int)
    requires |urls| == ImageCount
    ensures 1 <= id <= 24 ==> GetGalleryImageById(GetAllGalleryImages(urls), id) == Some(GetAllGalleryImages(urls)[id - 1])
    ensures !(1 <= id <= 24) ==> GetGalleryImageById(GetAllGalleryImages(urls), id).None?
  {
    if 1 <= id <= 24 {
      FindUnique(GetAllGalleryImages(urls), (img: GalleryImage) => img.id == id, id - 1);
    }
  }

  /** `getGalleryImagesByCategory`: exactly that category's images, in
      list order. */
  function GetGalleryImagesByCategory(images: seq<GalleryImage>, category: string): (r: seq<GalleryImage>)
    ensures forall img :: img in r <==> img in images && img.category == category
    ensures IsSubsequence(r, images)
  {
    FilterIsSubsequence(images, (img: GalleryImage) => img.category == category);
    Filter(images, (img: GalleryImage) => img.category == category)
  }
}
